// What the register writes of one block transfer amount to.
module MmcSequence {
  import opened Words
  import opened ParamSets
  import opened MmcHost
  import C = MmcCommand

  // mmc0_send_cmd
  function Issued(r: Regs, idx: bv6, flags: C.Flags, arg: word, nblks: nat, dmaEnable: bool): Regs {
    var n := if flags.data then nblks else 0;
    r.(blk := r.blk % TWO16 + TWO16 * U16(n), arg := arg, cmd := C.Meaning(idx, flags, dmaEnable))
  }

  // Only a command with data announces blocks.
  lemma IssuedCount(r: Regs, idx: bv6, flags: C.Flags, arg: word, nblks: nat, dmaEnable: bool)
    ensures var t := Issued(r, idx, flags, arg, nblks, dmaEnable);
      && t.arg == arg && t.blk % 0x1_0000 == r.blk % 0x1_0000
      && Nblk(t) == if flags.data then nblks % 0x1_0000 else 0
  {
  }

  // MMCBlkLenSet, for lengths within the field
  function BlkLen(blk: nat, blkSize: nat): nat {
    blk - blk % 0x1000 + blkSize
  }

  // MMCRxDMAsetup and MMCTxDMAsetup
  function Channel(read: bool): nat { if read then RX else TX }

  function Params(read: bool, ptr: word, blkSize: nat, nblks: nat, rsvd: nat): ParamSet {
    if read then RxParams(FIFO, ptr, blkSize, nblks, rsvd) else TxParams(FIFO, ptr, blkSize, nblks, rsvd)
  }

  function SetUp(r: Regs, read: bool, ptr: word, blkSize: nat, nblks: nat, rsvd: nat): Regs {
    var ch := Channel(read);
    r.(params := r.params[ch := Pack(Params(read, ptr, blkSize, nblks, rsvd))], events := r.events + {ch},
       blk := BlkLen(r.blk, blkSize))
  }

  lemma BlockRegister(blk: nat, blkSize: nat, n: nat)
    requires blkSize < 0x1000
    ensures var b := BlkLen(blk, blkSize) % TWO16 + TWO16 * U16(n);
      b / TWO16 == U16(n) && b % 0x1000 == blkSize
  {
    var low := BlkLen(blk, blkSize) % TWO16;
    var page := BlkLen(blk, blkSize) / TWO16;
    Pages(blk / 0x1000 - 16 * page, blkSize);
    assert low == 0x1000 * (blk / 0x1000 - 16 * page) + blkSize;
    Pages(blk / 0x1000 - 16 * page + 16 * U16(n), blkSize);
  }

  lemma Pages(k: int, offset: nat)
    requires offset < 0x1000
    ensures (0x1000 * k + offset) % 0x1000 == offset
  {
  }

  // The channel is programmed for exactly the bytes the block count register announces.
  lemma ProgrammedParams(r: Regs, read: bool, ptr: word, blkSize: nat, nblks: nat, rsvd: nat)
    requires rsvd < TWO16
    ensures Programmed(SetUp(r, read, ptr, blkSize, nblks, rsvd), Channel(read))
         == Some(Params(read, ptr, blkSize, nblks, rsvd))
  {
    UnpackPack(Params(read, ptr, blkSize, nblks, rsvd));
  }

  // The eight words the driver writes for the blocks of a transfer
  lemma BlockWords(ptr: word, n: nat, rsvd: nat)
    requires rsvd < 0x1_0000
    ensures Pack(Params(true, ptr, 512, n, rsvd)) ==
      [0x11_9205, 0x4806_0220, 0x80_0004, ptr, 0x4_0000, 0xFFFF, 0x200_0000, n % 0x1_0000 + 0x1_0000 * rsvd]
    ensures Pack(Params(false, ptr, 512, n, rsvd)) ==
      [0x11_8206, ptr, 0x80_0004, 0x4806_0220, 0x4, 0xFFFF, 0x200, n % 0x1_0000 + 0x1_0000 * rsvd]
  {
  }

  lemma ReceivesFlat(ptr: word, blkSize: nat, nblks: nat, rsvd: nat, ram: nat)
    requires FlatGeometry(blkSize, U16(nblks)) && ptr + blkSize * U16(nblks) <= ram
    ensures var p := RxParams(FIFO, ptr, blkSize, nblks, rsvd);
      DestAddrs(p) == Flat(ptr, blkSize * U16(nblks)) && Receives(p, ram, blkSize * U16(nblks))
  {
    var p := RxParams(FIFO, ptr, blkSize, nblks, rsvd);
    RxTouchesExactly(FIFO, ptr, blkSize, U16(nblks), rsvd);
    BlockOnRegister(FIFO, p.bCnt, p.cCnt);
  }

  lemma TransmitsFlat(ptr: word, blkSize: nat, nblks: nat, rsvd: nat, ram: nat)
    requires FlatGeometry(blkSize, U16(nblks)) && ptr + blkSize * U16(nblks) <= ram
    ensures var p := TxParams(FIFO, ptr, blkSize, nblks, rsvd);
      SrcAddrs(p) == Flat(ptr, blkSize * U16(nblks)) && Transmits(p, ram, blkSize * U16(nblks))
  {
    var p := TxParams(FIFO, ptr, blkSize, nblks, rsvd);
    TxTouchesExactly(FIFO, ptr, blkSize, U16(nblks), rsvd);
    BlockOnRegister(FIFO, p.bCnt, p.cCnt);
  }

  // ---- Block transfers ----

  // The blocks a transfer of n blocks really covers: the count registers are 16 bits wide.
  predicate Reachable(card: Card, s: Store, arg: word, n: nat) {
    var first := FirstBlock(card, arg);
    n >= 1 && U16(n) >= 1 && first.Some? && first.value + U16(n) <= |s.blocks|
  }

  function AfterRead(s: Store, q: nat, first: nat, n: nat): Store
    requires WellFormed(s) && q + BLOCK * U16(n) <= |s.ram| && first + U16(n) <= |s.blocks|
  {
    s.(ram := Splice(s.ram, q, Join(s.blocks[first..first + U16(n)])))
  }

  function AfterWrite(s: Store, p: nat, first: nat, n: nat): Store
    requires WellFormed(s) && p + BLOCK * U16(n) <= |s.ram| && first + U16(n) <= |s.blocks|
  {
    s.(blocks := Splice(s.blocks, first, Chunks(s.ram[p..p + BLOCK * U16(n)], U16(n))))
  }

  const READ_FLAGS := C.NO_FLAGS.(read := true, data := true)
  const WRITE_FLAGS := C.NO_FLAGS.(write := true, data := true)

  function TransferRegs(r: Regs, read: bool, idx: bv6, flags: C.Flags, arg: word, ptr: word, n: nat, rsvd: nat): Regs {
    Issued(SetUp(r, read, ptr, BLOCK, n, rsvd), idx, flags, arg, n, true)
  }

  lemma TransferDecoded(r: Regs, read: bool, idx: bv6, flags: C.Flags, arg: word, ptr: word, n: nat, rsvd: nat)
    requires rsvd < TWO16 && flags.data && (flags.read <==> read)
    ensures var t := TransferRegs(r, read, idx, flags, arg, ptr, n, rsvd);
      && t.cmd.dataPresent && t.cmd.dmaEnabled && t.cmd.blockCounted
      && (t.cmd.cardToHost <==> read) && t.cmd.idx == idx
      && Nblk(t) == U16(n) && Blen(t) == BLOCK
      && Programmed(t, Channel(read)) == Some(Params(read, ptr, BLOCK, n, rsvd))
  {
    BlockRegister(r.blk, BLOCK, n);
    ProgrammedParams(r, read, ptr, BLOCK, n, rsvd);
  }

  lemma OutputOf(card: Card, s: Store, t: Regs, n: nat)
    requires WellFormed(s)
    requires t.cmd.idx == if n > 1 then 18 else 17
    requires Nblk(t) == U16(n) && Blen(t) == BLOCK
    ensures CardOutput(card, s, t) ==
      if Reachable(card, s, t.arg, n) then
        var first := FirstBlock(card, t.arg).value;
        Some(Join(s.blocks[first..first + U16(n)]))
      else None
  {
    assert Addressed(card, s, t, 17, 18) == if Reachable(card, s, t.arg, n) then FirstBlock(card, t.arg) else None;
  }

  // A block read moves the addressed blocks to the buffer, or nothing.
  lemma ReadMoves(card: Card, s: Store, r: Regs, idx: bv6, flags: C.Flags, arg: word, q: word, n: nat, rsvd: nat)
    requires WellFormed(s) && rsvd < TWO16 && q + BLOCK * U16(n) <= |s.ram|
    requires idx == if n > 1 then 18 else 17
    requires flags.data && flags.read
    ensures Moved(card, s, TransferRegs(r, true, idx, flags, arg, q, n, rsvd))
         == if Reachable(card, s, arg, n) then Some(AfterRead(s, q, FirstBlock(card, arg).value, n)) else None
  {
    var t := TransferRegs(r, true, idx, flags, arg, q, n, rsvd);
    TransferDecoded(r, true, idx, flags, arg, q, n, rsvd);
    OutputOf(card, s, t, n);
    Received(card, s, t, q, BLOCK, n, rsvd);
  }

  // A programmed receive channel puts what the card delivers at the start of the buffer.
  lemma Received(card: Card, s: Store, t: Regs, q: word, blkSize: nat, n: nat, rsvd: nat)
    requires WellFormed(s) && q + blkSize * U16(n) <= |s.ram| && FlatGeometry(blkSize, U16(n))
    requires t.cmd.dataPresent && t.cmd.dmaEnabled && t.cmd.blockCounted && t.cmd.cardToHost
    requires Programmed(t, RX) == Some(RxParams(FIFO, q, blkSize, n, rsvd))
    ensures var data := CardOutput(card, s, t);
      && (data == None ==> Moved(card, s, t) == None)
      && (data.Some? && |data.value| == blkSize * U16(n) ==>
            Moved(card, s, t) == Some(s.(ram := Splice(s.ram, q, data.value))))
  {
    var data := CardOutput(card, s, t);
    if data.Some? && |data.value| == blkSize * U16(n) {
      ReceivesFlat(q, blkSize, n, rsvd, |s.ram|);
      ScatterFlat(s.ram, q, data.value);
    }
  }

  // A block write moves the buffer to the addressed blocks, or nothing.
  lemma WriteMoves(card: Card, s: Store, r: Regs, idx: bv6, flags: C.Flags, arg: word, p: word, n: nat, rsvd: nat)
    requires WellFormed(s) && rsvd < TWO16 && p + BLOCK * U16(n) <= |s.ram|
    requires idx == if n > 1 then 25 else 24
    requires flags.data && !flags.read
    ensures Moved(card, s, TransferRegs(r, false, idx, flags, arg, p, n, rsvd))
         == if Reachable(card, s, arg, n) then Some(AfterWrite(s, p, FirstBlock(card, arg).value, n)) else None
  {
    var t := TransferRegs(r, false, idx, flags, arg, p, n, rsvd);
    TransferDecoded(r, false, idx, flags, arg, p, n, rsvd);
    var first := Addressed(card, s, t, 24, 25);
    assert first == if Reachable(card, s, arg, n) then FirstBlock(card, arg) else None;
    if first.Some? {
      TransmitsFlat(p, BLOCK, n, rsvd, |s.ram|);
      GatherFlat(s.ram, p, BLOCK * U16(n));
    }
  }

  // ---- Cache maintenance around the transfers ----

  function Cleaned(s: Store, a: nat, n: nat): (c: Store)
    requires WellFormed(s) && a + n <= |s.ram|
    ensures WellFormed(c) && c.view == s.view && c.blocks == s.blocks && |c.ram| == |s.ram|
  {
    s.(ram := Splice(s.ram, a, s.view[a..a + n]))
  }

  function Invalidated(s: Store, a: nat, n: nat): Store
    requires WellFormed(s) && a + n <= |s.ram|
  {
    s.(view := Splice(s.view, a, s.ram[a..a + n]))
  }

  function WriteEffect(s: Store, p: nat, first: nat, n: nat): (w: Store)
    requires WellFormed(s) && p + BLOCK * n <= |s.ram| && first + U16(n) <= |s.blocks|
    ensures WellFormed(w) && w.view == s.view && |w.blocks| == |s.blocks| && |w.ram| == |s.ram|
  {
    AfterWrite(Cleaned(s, p, BLOCK * n), p, first, n)
  }

  function ReadEffect(s: Store, q: nat, first: nat, n: nat): Store
    requires WellFormed(s) && q + BLOCK * n <= |s.ram| && first + U16(n) <= |s.blocks|
  {
    Invalidated(AfterRead(s, q, first, n), q, BLOCK * n)
  }

  // Command index and flag word of a block transfer
  function Opcode(read: bool, n: nat): bv6 {
    if read then (if n > 1 then 18 else 17) else (if n > 1 then 25 else 24)
  }

  function OpFlags(read: bool, n: nat): C.Flags {
    var basic := if read then READ_FLAGS else WRITE_FLAGS;
    if n > 1 then basic.(abort := true) else basic
  }

  // The flag words of the four block commands
  lemma BlockFlags(n: nat)
    ensures C.FlagWord(OpFlags(true, n)) == if n > 1 then 0xC8 else 0xC0
    ensures C.FlagWord(OpFlags(false, n)) == if n > 1 then 0x148 else 0x140
    ensures Opcode(true, n) == (if n > 1 then 18 else 17) && Opcode(false, n) == if n > 1 then 25 else 24
  {
  }

  function BlockRegs(r: Regs, read: bool, arg: word, ptr: word, n: nat, rsvd: nat): Regs {
    TransferRegs(r, read, Opcode(read, n), OpFlags(read, n), arg, ptr, n, rsvd)
  }

  // What a block transfer of n blocks between a buffer and the card comes to, if it can happen at all
  function Transferred(card: Card, s: Store, read: bool, arg: word, ptr: word, n: nat): (o: Option<Store>)
    requires WellFormed(s) && ptr + BLOCK * U16(n) <= |s.ram|
  {
    if !Reachable(card, s, arg, n) then None
    else
      var first := FirstBlock(card, arg).value;
      Some(if read then AfterRead(s, ptr, first, n) else AfterWrite(s, ptr, first, n))
  }

  lemma WriteIsEffect(card: Card, s: Store, arg: word, p: word, n: nat)
    requires WellFormed(s) && p + BLOCK * n <= |s.ram|
    ensures Transferred(card, Cleaned(s, p, BLOCK * n), false, arg, p, n)
      == if Reachable(card, s, arg, n) then Some(WriteEffect(s, p, FirstBlock(card, arg).value, n)) else None
  {
  }

  // The blocks the card stores are those the CPU sees, however stale the RAM was.
  lemma CardReceivesView(s: Store, p: nat, first: nat, n: nat)
    requires WellFormed(s) && p + BLOCK * n <= |s.ram| && first + U16(n) <= |s.blocks|
    ensures var w := WriteEffect(s, p, first, n);
      && Join(w.blocks[first..first + U16(n)]) == s.view[p..p + BLOCK * U16(n)]
      && forall i :: 0 <= i < |s.blocks| && !(first <= i < first + U16(n)) ==> w.blocks[i] == s.blocks[i]
  {
    var c, data, w := Cleaned(s, p, BLOCK * n), s.view[p..p + BLOCK * U16(n)], WriteEffect(s, p, first, n);
    assert c.ram[p..p + BLOCK * n] == s.view[p..p + BLOCK * n];
    assert c.ram[p..p + BLOCK * U16(n)] == c.ram[p..p + BLOCK * n][..BLOCK * U16(n)] == data;
    assert w.blocks[first..first + U16(n)] == Chunks(data, U16(n));
    JoinChunks(data, U16(n));
  }

  // The registers written for a block transfer make exactly that happen.
  lemma BlockSequence(card: Card, s: Store, r: Regs, read: bool, arg: word, ptr: word, n: nat, rsvd: nat)
    requires WellFormed(s) && rsvd < TWO16 && ptr + BLOCK * U16(n) <= |s.ram|
    ensures var t := BlockRegs(r, read, arg, ptr, n, rsvd);
      && t.cmd.dataPresent && t.cmd.idx != 12
      && Moved(card, s, t) == Transferred(card, s, read, arg, ptr, n)
  {
    var idx, flags := Opcode(read, n), OpFlags(read, n);
    if read {
      ReadMoves(card, s, r, idx, flags, arg, ptr, n, rsvd);
    } else {
      WriteMoves(card, s, r, idx, flags, arg, ptr, n, rsvd);
    }
    TransferDecoded(r, read, idx, flags, arg, ptr, n, rsvd);
  }

  // Reading the 8-byte configuration register into a buffer
  lemma ScrSequence(card: Card, s: Store, r: Regs, arg: word, q: word, rsvd: nat)
    requires WellFormed(s) && |card.scr| == 8 && rsvd < TWO16 && q + 8 <= |s.ram|
    ensures var t := Issued(SetUp(r, true, q, 8, 1, rsvd), 51, READ_FLAGS, arg, 1, true);
      && t.cmd.dataPresent && t.cmd.idx != 12
      && Moved(card, s, t) == Some(s.(ram := Splice(s.ram, q, card.scr)))
  {
    var t := Issued(SetUp(r, true, q, 8, 1, rsvd), 51, READ_FLAGS, arg, 1, true);
    BlockRegister(r.blk, 8, 1);
    ProgrammedParams(r, true, q, 8, 1, rsvd);
    assert CardOutput(card, s, t) == Some(card.scr);
    Received(card, s, t, q, 8, 1, rsvd);
  }

  // ---- Read after write ----

  // The driver's address of a block, for a card whose addressing mode it knows and a block length of 512
  function AddressOf(card: Card, block: word): word {
    if card.highCap then block else block * BLOCK % TWO32
  }

  // The command addresses the intended block exactly when the byte address fits the argument register.
  lemma AddressesBlock(card: Card, block: word)
    ensures FirstBlock(card, AddressOf(card, block)) == Some(block) <==> card.highCap || block * BLOCK < TWO32
  {
    if !card.highCap {
      var wraps := block / 0x80_0000;
      assert block * BLOCK == TWO32 * wraps + BLOCK * (block % 0x80_0000);
      assert AddressOf(card, block) == BLOCK * (block % 0x80_0000);
    }
  }

  // Blocks written from p and read back to q arrive as they were; nothing else changes for the CPU
  // or on the card.
  lemma ReadAfterWrite(s: Store, p: nat, q: nat, first: nat, n: nat)
    requires WellFormed(s) && p + BLOCK * n <= |s.ram| && q + BLOCK * n <= |s.ram|
    requires n <= 0xFFFF && first + n <= |s.blocks|
    ensures var r := ReadEffect(WriteEffect(s, p, first, n), q, first, n);
      && r.view == Splice(s.view, q, s.view[p..p + BLOCK * n])
      && (forall i :: 0 <= i < |s.blocks| && !(first <= i < first + n) ==> r.blocks[i] == s.blocks[i])
  {
    var data := s.view[p..p + BLOCK * n];
    var w := WriteEffect(s, p, first, n);
    assert Cleaned(s, p, BLOCK * n).ram[p..p + BLOCK * n] == data;
    assert w.blocks[first..first + n] == Chunks(data, n);
    JoinChunks(data, n);
    assert AfterRead(w, q, first, n).ram[q..q + BLOCK * n] == data;
  }

  // Past the blocks the count registers announce, the buffer shows whatever the RAM held.
  lemma BeyondCount(s: Store, p: nat, q: nat, first: nat, n: nat, i: nat)
    requires WellFormed(s) && p + BLOCK * n <= |s.ram| && q + BLOCK * n <= |s.ram| && first + U16(n) <= |s.blocks|
    requires BLOCK * U16(n) <= i < BLOCK * n
    ensures ReadEffect(WriteEffect(s, p, first, n), q, first, n).view[q + i] == Cleaned(s, p, BLOCK * n).ram[q + i]
  {
    var w := WriteEffect(s, p, first, n);
    var a := AfterRead(w, q, first, n);
    assert a.ram[q + i] == w.ram[q + i];
    assert Invalidated(a, q, BLOCK * n).view[q..q + BLOCK * n][i] == a.ram[q..q + BLOCK * n][i];
  }

  // Half ones, seen by the CPU only, half zeros; a card of zeros
  function Halved(n: nat): (s: Store)
    requires 2 * BLOCK * n <= TWO32
    ensures WellFormed(s) && |s.ram| == 2 * BLOCK * n && |s.blocks| == n
  {
    Store(seq(BLOCK * n, i => 1) + seq(BLOCK * n, i => 0), seq(2 * BLOCK * n, i => 0),
          seq(n, i => seq(BLOCK, j => 0)))
  }

  // Beyond 65535 blocks the count registers truncate: a write and a read of that many blocks can be
  // accepted by the card while the buffer read back differs from the buffer written.
  lemma LongTransferLosesData(n: nat)
    requires 0xFFFF < n && 2 * BLOCK * n <= TWO32 && U16(n) >= 1
    ensures var s := Halved(n);
      && Reachable(Card(true, []), s, 0, n)
      && ReadEffect(WriteEffect(s, 0, 0, n), BLOCK * n, 0, n).view[BLOCK * n..2 * BLOCK * n] != s.view[..BLOCK * n]
  {
    var s, size, k := Halved(n), BLOCK * n, BLOCK * U16(n);
    BeyondCount(s, 0, size, 0, n, k);
    assert Cleaned(s, 0, size).ram[size + k] == 0;
    var v := ReadEffect(WriteEffect(s, 0, 0, n), size, 0, n).view;
    assert v[size..2 * size][k] == 0 && s.view[..size][k] == 1;
  }
}
