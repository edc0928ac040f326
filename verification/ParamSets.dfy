// The PaRAM set of the EDMA controller: the packed eight-word layout that software writes,
// and the addresses an AB-synchronised transfer touches.
module ParamSets {
  import opened Words
  import Libc

  // struct DMACCPaRAMEntry; the index fields are signed shorts.
  datatype ParamSet = ParamSet(
    opt: word, srcAddr: word, aCnt: nat, bCnt: nat, destAddr: word,
    srcBIdx: int, destBIdx: int, linkAddr: nat, bCntReload: nat,
    srcCIdx: int, destCIdx: int, cCnt: nat, rsvd: nat)

  ghost predicate IsShort(x: int) {
    -0x8000 <= x < 0x8000
  }

  ghost predicate FieldsFit(p: ParamSet) {
    && p.aCnt < TWO16 && p.bCnt < TWO16 && p.cCnt < TWO16 && p.rsvd < TWO16
    && p.linkAddr < TWO16 && p.bCntReload < TWO16
    && IsShort(p.srcBIdx) && IsShort(p.destBIdx) && IsShort(p.srcCIdx) && IsShort(p.destCIdx)
  }

  // Two 16-bit members sharing one word, the first declared in the low half.
  function Halves(lo: int, hi: int): word {
    U16(lo) + TWO16 * U16(hi)
  }

  function Lo(w: word): nat { w % TWO16 }
  function Hi(w: word): nat { w / TWO16 }

  // The struct as the eight words that DMASetPaRAM copies.
  function Pack(p: ParamSet): (w: seq<word>)
    ensures |w| == 8
  {
    [ p.opt, p.srcAddr, Halves(p.aCnt, p.bCnt), p.destAddr, Halves(p.srcBIdx, p.destBIdx),
      Halves(p.linkAddr, p.bCntReload), Halves(p.srcCIdx, p.destCIdx), Halves(p.cCnt, p.rsvd) ]
  }

  // What the controller makes of the eight words.
  function Unpack(w: seq<word>): ParamSet
    requires |w| == 8
  {
    ParamSet(w[0], w[1], Lo(w[2]), Hi(w[2]), w[3], S16(Lo(w[4])), S16(Hi(w[4])),
             Lo(w[5]), Hi(w[5]), S16(Lo(w[6])), S16(Hi(w[6])), Lo(w[7]), Hi(w[7]))
  }

  lemma HalvesSplit(lo: int, hi: int)
    ensures Lo(Halves(lo, hi)) == U16(lo) && Hi(Halves(lo, hi)) == U16(hi)
  {
  }

  lemma ShortSurvives(x: int)
    requires IsShort(x)
    ensures S16(U16(x)) == x
  {
  }

  lemma UnpackPack(p: ParamSet)
    requires FieldsFit(p)
    ensures Unpack(Pack(p)) == p
  {
    HalvesSplit(p.aCnt, p.bCnt);
    HalvesSplit(p.srcBIdx, p.destBIdx);
    HalvesSplit(p.linkAddr, p.bCntReload);
    HalvesSplit(p.srcCIdx, p.destCIdx);
    HalvesSplit(p.cCnt, p.rsvd);
    ShortSurvives(p.srcBIdx);
    ShortSurvives(p.destBIdx);
    ShortSurvives(p.srcCIdx);
    ShortSurvives(p.destCIdx);
  }

  // ---- Addresses of an AB-synchronised transfer ----

  // n consecutive byte addresses
  function Flat(a: int, n: nat): (r: seq<int>)
    ensures |r| == n
    ensures forall i :: 0 <= i < n ==> r[i] == a + i
  {
    seq(n, i => a + i)
  }

  // One frame: bCnt arrays of aCnt bytes, bIdx apart.
  function FrameAddrs(a: int, aCnt: nat, bCnt: nat, bIdx: int): (r: seq<int>)
    ensures |r| == aCnt * bCnt
  {
    if bCnt == 0 then []
    else FrameAddrs(a, aCnt, bCnt - 1, bIdx) + Flat(a + (bCnt - 1) * bIdx, aCnt)
  }

  // cCnt frames, cIdx apart from frame start to frame start; one frame per synchronisation event.
  function BlockAddrs(a: int, aCnt: nat, bCnt: nat, cCnt: nat, bIdx: int, cIdx: int): (r: seq<int>)
    ensures |r| == aCnt * bCnt * cCnt
  {
    if cCnt == 0 then []
    else
      BlockAddrs(a, aCnt, bCnt, cCnt - 1, bIdx, cIdx) + FrameAddrs(a + (cCnt - 1) * cIdx, aCnt, bCnt, bIdx)
  }

  function DestAddrs(p: ParamSet): seq<int> {
    BlockAddrs(p.destAddr, p.aCnt, p.bCnt, p.cCnt, p.destBIdx, p.destCIdx)
  }

  function SrcAddrs(p: ParamSet): seq<int> {
    BlockAddrs(p.srcAddr, p.aCnt, p.bCnt, p.cCnt, p.srcBIdx, p.srcCIdx)
  }

  lemma FlatSplit(a: int, m: nat, n: nat)
    ensures Flat(a, m) + Flat(a + m, n) == Flat(a, m + n)
  {
  }

  lemma {:induction false} FrameIsFlat(a: int, aCnt: nat, bCnt: nat)
    ensures FrameAddrs(a, aCnt, bCnt, aCnt) == Flat(a, aCnt * bCnt)
  {
    if bCnt > 0 {
      FrameIsFlat(a, aCnt, bCnt - 1);
      FlatSplit(a, aCnt * (bCnt - 1), aCnt);
    }
  }

  lemma {:induction false} BlockIsFlat(a: int, aCnt: nat, bCnt: nat, cCnt: nat)
    ensures BlockAddrs(a, aCnt, bCnt, cCnt, aCnt, aCnt * bCnt) == Flat(a, aCnt * bCnt * cCnt)
  {
    if cCnt > 0 {
      var f := aCnt * bCnt;
      BlockIsFlat(a, aCnt, bCnt, cCnt - 1);
      FrameIsFlat(a + f * (cCnt - 1), aCnt, bCnt);
      FlatSplit(a, f * (cCnt - 1), f);
      assert f * (cCnt - 1) + f == f * cCnt;
    }
  }

  lemma {:induction false} BlockPrefix(a: int, aCnt: nat, bCnt: nat, k: nat, cCnt: nat, bIdx: int, cIdx: int)
    requires k <= cCnt
    ensures BlockAddrs(a, aCnt, bCnt, k, bIdx, cIdx) <= BlockAddrs(a, aCnt, bCnt, cCnt, bIdx, cIdx)
    decreases cCnt
  {
    if k < cCnt {
      BlockPrefix(a, aCnt, bCnt, k, cCnt - 1, bIdx, cIdx);
    }
  }

  // The first byte of the second frame lies cIdx after the first byte of the first one.
  lemma SecondFrameStart(a: int, aCnt: nat, bCnt: nat, cCnt: nat, bIdx: int, cIdx: int)
    requires aCnt > 0 && bCnt > 0 && cCnt >= 2
    ensures aCnt * bCnt < aCnt * bCnt * cCnt
    ensures BlockAddrs(a, aCnt, bCnt, cCnt, bIdx, cIdx)[aCnt * bCnt] == a + cIdx
  {
    var f := aCnt * bCnt;
    FrameStart(a + cIdx, aCnt, bCnt, bIdx);
    Libc.MulMono(f, 2, cCnt);
    TwoFrames(a, aCnt, bCnt, bIdx, cIdx);
    BlockPrefix(a, aCnt, bCnt, 2, cCnt, bIdx, cIdx);
  }

  lemma TwoFrames(a: int, aCnt: nat, bCnt: nat, bIdx: int, cIdx: int)
    requires 0 < aCnt * bCnt && FrameAddrs(a + cIdx, aCnt, bCnt, bIdx)[0] == a + cIdx
    ensures BlockAddrs(a, aCnt, bCnt, 2, bIdx, cIdx)[aCnt * bCnt] == a + cIdx
  {
    var one, second := BlockAddrs(a, aCnt, bCnt, 1, bIdx, cIdx), FrameAddrs(a + cIdx, aCnt, bCnt, bIdx);
    assert BlockAddrs(a, aCnt, bCnt, 2, bIdx, cIdx) == one + second;
    assert |one| == aCnt * bCnt;
  }

  lemma {:induction false} FrameStart(a: int, aCnt: nat, bCnt: nat, bIdx: int)
    requires aCnt > 0 && bCnt > 0
    ensures 0 < aCnt * bCnt && FrameAddrs(a, aCnt, bCnt, bIdx)[0] == a
  {
    if bCnt > 1 {
      FrameStart(a, aCnt, bCnt - 1, bIdx);
    }
  }

  // A product shrinks when one factor does and the other does not grow.
  lemma SmallerProduct(x: nat, y: nat, u: nat, v: nat)
    requires x <= u && y <= v && 0 < u && 0 < v && (x < u || y < v)
    ensures x * y < u * v
  {
    Libc.MulMono(x, y, v);
    Libc.MulMono(v, x, u);
    if x < u {
      Libc.MulMono(v, x + 1, u);
    } else {
      Libc.MulMono(u, y + 1, v);
    }
  }

  lemma EqualProduct(x: nat, y: nat, u: nat, v: nat)
    requires x <= u && y <= v && 0 < u && 0 < v && x * y == u * v
    ensures x == u && y == v
  {
    if x < u || y < v {
      SmallerProduct(x, y, u, v);
    }
  }

  // ---- The two parameter sets of the MMC driver ----

  const TX: nat := 24  // DMA_CHA_MMC0_TX
  const RX: nat := 25  // DMA_CHA_MMC0_RX

  // Completion code, interrupt on completion, constant addressing of source or destination, 32-bit FIFO,
  // AB-synchronised
  const OPT_RX: word := RX * 0x1000 + 0x10_0000 + 1 + 2 * 0x100 + 4
  const OPT_TX: word := TX * 0x1000 + 0x10_0000 + 2 + 2 * 0x100 + 4

  function RxParams(fifo: word, ptr: word, blkSize: nat, nblks: nat, rsvd: nat): (p: ParamSet)
  {
    ParamSet(OPT_RX, fifo, 4, U16(blkSize) / 4, ptr, 0, 4, 0xffff, 0, 0, S16(blkSize), U16(nblks), rsvd)
  }

  function TxParams(fifo: word, ptr: word, blkSize: nat, nblks: nat, rsvd: nat): (p: ParamSet)
  {
    ParamSet(OPT_TX, ptr, 4, U16(blkSize) / 4, fifo, 4, 0, 0xffff, 0, S16(blkSize), 0, U16(nblks), rsvd)
  }

  // The inputs for which the strided transfer is the flat copy the caller asked for.
  predicate FlatGeometry(blkSize: nat, nblks: nat) {
    || blkSize == 0
    || nblks == 0
    || (blkSize % 4 == 0 && blkSize < TWO16 && nblks < TWO16 && (nblks == 1 || blkSize < 0x8000))
  }

  lemma FittingIsFlat(a: int, blkSize: nat, nblks: nat)
    requires FlatGeometry(blkSize, nblks)
    ensures BlockAddrs(a, 4, U16(blkSize) / 4, U16(nblks), 4, S16(blkSize)) == Flat(a, blkSize * nblks)
  {
    var b := U16(blkSize) / 4;
    if blkSize == 0 || nblks == 0 {
      assert 4 * b * U16(nblks) == 0;
    } else if nblks == 1 {
      FrameIsFlat(a, 4, b);
      assert BlockAddrs(a, 4, b, 0, 4, S16(blkSize)) == [];
    } else {
      assert 4 * b == blkSize;
      BlockIsFlat(a, 4, b, nblks);
    }
  }

  lemma FlatIsFitting(a: int, blkSize: nat, nblks: nat)
    requires BlockAddrs(a, 4, U16(blkSize) / 4, U16(nblks), 4, S16(blkSize)) == Flat(a, blkSize * nblks)
    ensures FlatGeometry(blkSize, nblks)
  {
    var b, c := U16(blkSize) / 4, U16(nblks);
    if blkSize > 0 && nblks > 0 {
      assert 4 * b * c == |Flat(a, blkSize * nblks)|;
      EqualProduct(4 * b, c, blkSize, nblks);
      if nblks >= 2 {
        SecondFrameStart(a, 4, b, c, 4, S16(blkSize));
        SmallerProduct(blkSize, 1, blkSize, nblks);
        assert Flat(a, blkSize * nblks)[blkSize] == a + blkSize;
      }
    }
  }

  lemma StridedIsFlat(a: int, blkSize: nat, nblks: nat)
    ensures BlockAddrs(a, 4, U16(blkSize) / 4, U16(nblks), 4, S16(blkSize)) == Flat(a, blkSize * nblks)
      <==> FlatGeometry(blkSize, nblks)
  {
    if FlatGeometry(blkSize, nblks) {
      FittingIsFlat(a, blkSize, nblks);
    } else if BlockAddrs(a, 4, U16(blkSize) / 4, U16(nblks), 4, S16(blkSize)) == Flat(a, blkSize * nblks) {
      FlatIsFitting(a, blkSize, nblks);
    }
  }

  // MMCRxDMAsetup: the card data lands on [ptr, ptr + blkSize * nblks), each byte once and in order,
  // exactly when the geometry fits.
  lemma RxTouchesExactly(fifo: word, ptr: word, blkSize: nat, nblks: nat, rsvd: nat)
    ensures DestAddrs(RxParams(fifo, ptr, blkSize, nblks, rsvd)) == Flat(ptr, blkSize * nblks)
      <==> FlatGeometry(blkSize, nblks)
  {
    StridedIsFlat(ptr, blkSize, nblks);
  }

  lemma TxTouchesExactly(fifo: word, ptr: word, blkSize: nat, nblks: nat, rsvd: nat)
    ensures SrcAddrs(TxParams(fifo, ptr, blkSize, nblks, rsvd)) == Flat(ptr, blkSize * nblks)
      <==> FlatGeometry(blkSize, nblks)
  {
    StridedIsFlat(ptr, blkSize, nblks);
  }

  // n accesses of four bytes each to the same register
  function Register(fifo: int, n: nat): (r: seq<int>)
    ensures |r| == 4 * n
  {
    seq(4 * n, i => fifo + i % 4)
  }

  lemma RegisterSplit(fifo: int, m: nat, n: nat)
    ensures Register(fifo, m) + Register(fifo, n) == Register(fifo, m + n)
  {
    var r := Register(fifo, m) + Register(fifo, n);
    forall i | 0 <= i < |r| ensures r[i] == Register(fifo, m + n)[i] {
      if i >= 4 * m {
        SameResidue(i - 4 * m, m);
      }
    }
  }

  lemma SameResidue(i: nat, k: nat)
    ensures (i + 4 * k) % 4 == i % 4
  {
  }

  lemma {:induction false} FrameOnRegister(fifo: int, bCnt: nat)
    ensures FrameAddrs(fifo, 4, bCnt, 0) == Register(fifo, bCnt)
  {
    if bCnt > 0 {
      FrameOnRegister(fifo, bCnt - 1);
      RegisterSplit(fifo, bCnt - 1, 1);
      assert Flat(fifo, 4) == Register(fifo, 1);
    }
  }

  // The peripheral side of the transfer never leaves the four bytes of the data register.
  lemma {:induction false} BlockOnRegister(fifo: int, bCnt: nat, cCnt: nat)
    ensures BlockAddrs(fifo, 4, bCnt, cCnt, 0, 0) == Register(fifo, bCnt * cCnt)
  {
    if cCnt > 0 {
      BlockOnRegister(fifo, bCnt, cCnt - 1);
      FrameOnRegister(fifo, bCnt);
      RegisterSplit(fifo, bCnt * (cCnt - 1), bCnt);
      assert bCnt * (cCnt - 1) + bCnt == bCnt * cCnt;
    }
  }
}
