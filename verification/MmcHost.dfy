// The SD host controller, the card behind it and the EDMA channel between them, as the driver
// sees them: registers it writes, and the data movement one data phase performs.
module MmcHost {
  import opened Words
  import opened ParamSets
  import C = MmcCommand

  const BLOCK: nat := 512
  const FIFO: word := 0x4806_0220  // SD_DATA register of MMC0

  // What the CPU sees through its data cache, what the DMA engine sees, and the card's blocks.
  datatype Store = Store(view: seq<byte>, ram: seq<byte>, blocks: seq<seq<byte>>)

  ghost predicate WellFormed(s: Store) {
    && |s.view| == |s.ram| <= TWO32
    && forall i :: 0 <= i < |s.blocks| ==> |s.blocks[i]| == BLOCK
  }

  // A block-addressed (high capacity) or byte-addressed card, and its 8-byte configuration register.
  datatype Card = Card(highCap: bool, scr: seq<byte>)

  datatype Regs = Regs(blk: nat, arg: word, cmd: C.Command, params: map<nat, seq<word>>, events: set<nat>)

  function Nblk(r: Regs): nat { r.blk / TWO16 }
  function Blen(r: Regs): nat { r.blk % 0x1000 }

  // ---- Card blocks as bytes ----

  function Join(blocks: seq<seq<byte>>): (r: seq<byte>)
    requires forall i :: 0 <= i < |blocks| ==> |blocks[i]| == BLOCK
    ensures |r| == BLOCK * |blocks|
  {
    seq(BLOCK * |blocks|, i requires 0 <= i < BLOCK * |blocks| => blocks[i / BLOCK][i % BLOCK])
  }

  function Chunks(data: seq<byte>, n: nat): (r: seq<seq<byte>>)
    requires |data| == BLOCK * n
    ensures |r| == n && forall i :: 0 <= i < n ==> |r[i]| == BLOCK
  {
    seq(n, i requires 0 <= i < n => data[BLOCK * i..BLOCK * (i + 1)])
  }

  lemma JoinChunks(data: seq<byte>, n: nat)
    requires |data| == BLOCK * n
    ensures Join(Chunks(data, n)) == data
  {
    var r := Join(Chunks(data, n));
    forall i | 0 <= i < |r| ensures r[i] == data[i] {
      assert r[i] == data[BLOCK * (i / BLOCK)..BLOCK * (i / BLOCK + 1)][i % BLOCK];
    }
  }

  // ---- The DMA engine ----

  predicate InRange(addrs: seq<int>, n: nat) {
    forall i :: 0 <= i < |addrs| ==> 0 <= addrs[i] < n
  }

  function Scatter(ram: seq<byte>, addrs: seq<int>, data: seq<byte>): (r: seq<byte>)
    requires InRange(addrs, |ram|) && |data| == |addrs|
    ensures |r| == |ram|
  {
    if |addrs| == 0 then ram
    else
      var n := |addrs| - 1;
      Scatter(ram, addrs[..n], data[..n])[addrs[n] := data[n]]
  }

  function Gather(ram: seq<byte>, addrs: seq<int>): (r: seq<byte>)
    requires InRange(addrs, |ram|)
    ensures |r| == |addrs|
  {
    seq(|addrs|, i requires 0 <= i < |addrs| => ram[addrs[i]])
  }

  lemma {:induction false} ScatterFlat(ram: seq<byte>, a: nat, data: seq<byte>)
    requires a + |data| <= |ram|
    ensures InRange(Flat(a, |data|), |ram|)
    ensures Scatter(ram, Flat(a, |data|), data) == Splice(ram, a, data)
  {
    if |data| > 0 {
      var n := |data| - 1;
      ScatterFlat(ram, a, data[..n]);
      assert Flat(a, |data|)[..n] == Flat(a, n);
    }
  }

  lemma GatherFlat(ram: seq<byte>, a: nat, n: nat)
    requires a + n <= |ram|
    ensures InRange(Flat(a, n), |ram|)
    ensures Gather(ram, Flat(a, n)) == ram[a..a + n]
  {
  }

  predicate AbSync(p: ParamSet) { p.opt / 4 % 2 == 1 }
  predicate InterruptsOnCompletion(p: ParamSet, tcc: nat) {
    p.opt / 0x10_0000 % 2 == 1 && p.opt / 0x1000 % 64 == tcc
  }

  // 32-bit accesses, reloaded by nothing, without intermediate interrupts and without chaining
  predicate StandsAlone(p: ParamSet) {
    p.opt / 8 % 2 == 0 && p.opt / 0x100 % 8 == 2 && p.opt / 0x20_0000 % 8 == 0 && p.linkAddr == 0xFFFF
  }

  // The channel moves exactly n bytes from the data register into RAM.
  predicate Receives(p: ParamSet, ram: nat, n: nat) {
    && AbSync(p) && InterruptsOnCompletion(p, RX) && StandsAlone(p) && p.opt % 2 == 1 && p.opt / 2 % 2 == 0
    && SrcAddrs(p) == Register(FIFO, p.bCnt * p.cCnt)
    && |DestAddrs(p)| == n && InRange(DestAddrs(p), ram)
  }

  predicate Transmits(p: ParamSet, ram: nat, n: nat) {
    && AbSync(p) && InterruptsOnCompletion(p, TX) && StandsAlone(p) && p.opt % 2 == 0 && p.opt / 2 % 2 == 1
    && DestAddrs(p) == Register(FIFO, p.bCnt * p.cCnt)
    && |SrcAddrs(p)| == n && InRange(SrcAddrs(p), ram)
  }

  function Programmed(r: Regs, channel: nat): Option<ParamSet> {
    if channel in r.events && channel in r.params && |r.params[channel]| == 8
    then Some(Unpack(r.params[channel])) else None
  }

  // ---- The card ----

  // First block meant by a command argument: a block number, or a byte address on a block boundary.
  function FirstBlock(card: Card, arg: word): Option<nat> {
    if card.highCap then Some(arg) else if arg % BLOCK == 0 then Some(arg / BLOCK) else None
  }

  // Blocks addressed by a single (one block) or multiple (at least one) block command.
  function Addressed(card: Card, s: Store, r: Regs, single: bv6, multiple: bv6): Option<nat> {
    var idx := r.cmd.idx;
    var first := FirstBlock(card, r.arg);
    if && Blen(r) == BLOCK
       && ((idx == single && Nblk(r) == 1) || (idx == multiple && Nblk(r) >= 1))
       && first.Some? && first.value + Nblk(r) <= |s.blocks|
    then first else None
  }

  function CardOutput(card: Card, s: Store, r: Regs): (o: Option<seq<byte>>)
    requires WellFormed(s)
  {
    var first := Addressed(card, s, r, 17, 18);
    if first.Some? then Some(Join(s.blocks[first.value..first.value + Nblk(r)]))
    else if r.cmd.idx == 51 && Nblk(r) == 1 && Blen(r) == |card.scr| then Some(card.scr)
    else None
  }

  // The effect of a completed data phase, if the card, the controller and the DMA channel agree on it.
  function Moved(card: Card, s: Store, r: Regs): (o: Option<Store>)
    requires WellFormed(s)
    ensures o.Some? ==> WellFormed(o.value) && |o.value.ram| == |s.ram| && o.value.view == s.view
    ensures o.Some? ==> |o.value.blocks| == |s.blocks| && (r.cmd.cardToHost ==> o.value.blocks == s.blocks)
  {
    if !r.cmd.dataPresent || !r.cmd.dmaEnabled || !r.cmd.blockCounted then None
    else if r.cmd.cardToHost then
      var p, data := Programmed(r, RX), CardOutput(card, s, r);
      if p.Some? && data.Some? && Receives(p.value, |s.ram|, |data.value|)
      then Some(s.(ram := Scatter(s.ram, DestAddrs(p.value), data.value)))
      else None
    else
      var p, first := Programmed(r, TX), Addressed(card, s, r, 24, 25);
      if p.Some? && first.Some? && Transmits(p.value, |s.ram|, BLOCK * Nblk(r))
      then Some(s.(blocks := Splice(s.blocks, first.value, Chunks(Gather(s.ram, SrcAddrs(p.value)), Nblk(r)))))
      else None
  }
}
