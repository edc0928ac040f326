// The event queue numbers of the EDMA channels, packed eight to a register word.
module EdmaQueues {
  import opened BitWords

  const CHANNELS: nat := 64
  const QDMA_CHANNELS: nat := 8

  // DMACC_DMAQNUM_CLR and DMACC_DMAQNUM_SET (and, below channel 8, DMACC_QDMAQNUM_CLR and _SET)
  function QnumClr(chNum: nat): Bits { Not(Shl(Seven(), chNum % 8 * 4)) }
  function QnumSet(chNum: nat, queNum: Bits): Bits { Shl(And(Seven(), queNum), chNum % 8 * 4) }

  // The three bits a word holds for the channel of its k-th nibble
  function Field(w: Bits, k: nat): seq<bool>
    requires k < 8
  {
    w[4 * k..4 * k + 3]
  }

  function Assign(w: Bits, chNum: nat, queNum: Bits): Bits {
    Or(And(w, QnumClr(chNum)), QnumSet(chNum, queNum))
  }

  // One read-modify-write sets its own field and leaves every other bit of the word alone.
  lemma AssignSetsField(w: Bits, chNum: nat, queNum: Bits)
    ensures Field(Assign(w, chNum, queNum), chNum % 8) == queNum[..3]
    ensures forall i :: 0 <= i < 32 && !(chNum % 8 * 4 <= i < chNum % 8 * 4 + 3) ==> Assign(w, chNum, queNum)[i] == w[i]
  {
  }

  lemma AssignKeepsFields(w: Bits, chNum: nat, queNum: Bits, k: nat)
    requires k < 8 && k != chNum % 8
    ensures Field(Assign(w, chNum, queNum), k) == Field(w, k)
  {
    AssignSetsField(w, chNum, queNum);
  }

  lemma OrField(w: Bits, chNum: nat, queNum: Bits, i: nat)
    requires chNum < QDMA_CHANNELS && i < 3
    ensures Field(Or(w, QnumSet(chNum, queNum)), chNum)[i] == (Field(w, chNum)[i] || queNum[i])
  {
    var mask := QnumSet(chNum, queNum);
    assert mask[4 * chNum + i] == And(Seven(), queNum)[i] == queNum[i];
    assert Or(w, mask)[4 * chNum + i] == (w[4 * chNum + i] || mask[4 * chNum + i]);
  }

  // For a QDMA channel DMAMapChToEvtQ only sets bits. The channel ends up on the queue asked for
  // exactly when the field held no bit that the new number lacks.
  lemma QdmaRemap(w: Bits, chNum: nat, queNum: Bits)
    requires chNum < QDMA_CHANNELS
    ensures Field(Or(w, QnumSet(chNum, queNum)), chNum) == queNum[..3]
      <==> forall i :: 0 <= i < 3 ==> Field(w, chNum)[i] ==> queNum[i]
  {
    var f, was := Field(Or(w, QnumSet(chNum, queNum)), chNum), Field(w, chNum);
    OrField(w, chNum, queNum, 0);
    OrField(w, chNum, queNum, 1);
    OrField(w, chNum, queNum, 2);
    ThreeBits(f, queNum[..3]);
    assert (forall i :: 0 <= i < 3 ==> was[i] ==> queNum[i])
      <==> (was[0] ==> queNum[0]) && (was[1] ==> queNum[1]) && (was[2] ==> queNum[2]);
  }

  lemma ThreeBits(f: seq<bool>, g: seq<bool>)
    requires |f| == |g| == 3
    ensures f == g <==> f[0] == g[0] && f[1] == g[1] && f[2] == g[2]
  {
  }

  // ---- The register file ----

  // The queue numbers of all channels that the eight DMAQNUM words stand for
  function Queues(qnum: seq<Bits>): (q: seq<seq<bool>>)
    requires |qnum| == 8
    ensures |q| == CHANNELS
  {
    seq(CHANNELS, ch requires 0 <= ch < CHANNELS => Field(qnum[ch / 8], ch % 8))
  }

  function QdmaQueues(qdmaqnum: Bits): (q: seq<seq<bool>>)
    ensures |q| == QDMA_CHANNELS
  {
    seq(QDMA_CHANNELS, ch requires 0 <= ch < QDMA_CHANNELS => Field(qdmaqnum, ch))
  }

  // Three bits of each nibble, eight channels to a word
  lemma QueueBits(qnum: seq<Bits>, ch: nat)
    requires |qnum| == 8 && ch < 64
    ensures var w, k := qnum[ch / 8], ch % 8 * 4; Queues(qnum)[ch] == [w[k], w[k + 1], w[k + 2]]
  {
  }

  // Rewriting one field of one word is a point update of the queue map.
  lemma PointUpdate(qnum: seq<Bits>, chNum: nat, queNum: Bits)
    requires |qnum| == 8 && chNum < CHANNELS
    ensures Queues(qnum[chNum / 8 := Assign(qnum[chNum / 8], chNum, queNum)]) == Queues(qnum)[chNum := queNum[..3]]
  {
    var w := Assign(qnum[chNum / 8], chNum, queNum);
    var after, expected := Queues(qnum[chNum / 8 := w]), Queues(qnum)[chNum := queNum[..3]];
    AssignSetsField(qnum[chNum / 8], chNum, queNum);
    forall ch | 0 <= ch < CHANNELS ensures after[ch] == expected[ch] {
      if ch / 8 == chNum / 8 && ch != chNum {
        AssignKeepsFields(qnum[chNum / 8], chNum, queNum, ch % 8);
      }
    }
  }

  lemma QdmaPointUpdate(qdmaqnum: Bits, chNum: nat, queNum: Bits)
    requires chNum < QDMA_CHANNELS
    ensures QdmaQueues(Assign(qdmaqnum, chNum, queNum)) == QdmaQueues(qdmaqnum)[chNum := queNum[..3]]
  {
    var after, expected := QdmaQueues(Assign(qdmaqnum, chNum, queNum)), QdmaQueues(qdmaqnum)[chNum := queNum[..3]];
    AssignSetsField(qdmaqnum, chNum, queNum);
    forall ch | 0 <= ch < QDMA_CHANNELS ensures after[ch] == expected[ch] {
      if ch != chNum {
        AssignKeepsFields(qdmaqnum, chNum, queNum, ch);
      }
    }
  }

  // The parameter set that a DCHMAP register names in its bits 5 to 13
  function ParamSetOf(w: nat): nat { w / 32 % 512 }

  class Registers {
    var dmaqnum: seq<Bits>
    var qdmaqnum: Bits
    var dchmap: seq<nat>
    var drae: Bits
    var draeh: Bits
    var qrae: Bits

    ghost predicate Valid()
      reads this
    {
      |dmaqnum| == 8 && |dchmap| == CHANNELS
    }

    // DMAMapChToEvtQ, for a DMA channel
    method MapChToEvtQ(chNum: nat, evtQNum: Bits)
      requires Valid() && chNum < CHANNELS
      modifies this`dmaqnum
      ensures Valid()
      ensures Queues(dmaqnum) == old(Queues(dmaqnum))[chNum := evtQNum[..3]]
    {
      var n := chNum / 8;
      PointUpdate(dmaqnum, chNum, evtQNum);
      dmaqnum := dmaqnum[n := And(dmaqnum[n], QnumClr(chNum))];
      dmaqnum := dmaqnum[n := Or(dmaqnum[n], QnumSet(chNum, evtQNum))];
      assert dmaqnum == old(dmaqnum)[n := Assign(old(dmaqnum)[n], chNum, evtQNum)];
    }

    // DMAInit, from the region access registers on
    method Init(queNum: Bits)
      requires Valid()
      modifies this
      ensures Valid()
      ensures forall i :: 0 <= i < 32 ==> drae[i] && draeh[i] && qrae[i]
      ensures forall ch :: 0 <= ch < 64 ==>
        ParamSetOf(dchmap[ch]) == ch && dchmap[ch] % 32 == 0 && dchmap[ch] < 0x4000
      ensures forall ch :: 0 <= ch < 64 ==> Queues(dmaqnum)[ch] == queNum[..3]
      ensures forall ch :: 0 <= ch < 8 ==> QdmaQueues(qdmaqnum)[ch] == queNum[..3]
    {
      drae := All();
      draeh := All();
      for i := 0 to 64
        invariant Valid() && drae == draeh == All()
        invariant forall ch :: 0 <= ch < i ==> dchmap[ch] == ch * 32
      {
        dchmap := dchmap[i := i * 32];
      }
      for count := 0 to CHANNELS
        invariant Valid() && drae == draeh == All()
        invariant forall ch :: 0 <= ch < CHANNELS ==> dchmap[ch] == ch * 32
        invariant forall ch :: 0 <= ch < count ==> Queues(dmaqnum)[ch] == queNum[..3]
      {
        MapChToEvtQ(count, queNum);
      }
      qrae := All();
      for count := 0 to QDMA_CHANNELS
        invariant Valid() && drae == draeh == qrae == All()
        invariant forall ch :: 0 <= ch < CHANNELS ==> dchmap[ch] == ch * 32 && Queues(dmaqnum)[ch] == queNum[..3]
        invariant forall ch :: 0 <= ch < count ==> QdmaQueues(qdmaqnum)[ch] == queNum[..3]
      {
        QdmaPointUpdate(qdmaqnum, count, queNum);
        qdmaqnum := And(qdmaqnum, QnumClr(count));
        qdmaqnum := Or(qdmaqnum, QnumSet(count, queNum));
      }
    }
  }
}
