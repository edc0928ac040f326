// The SD_CMD register word that MMC0CmdSend composes, and what the host controller reads from it.
module MmcCommand {

  const FLAG_NONE: bv32 := 0x1
  const FLAG_STOP: bv32 := 0x2
  const FLAG_FS: bv32 := 0x4
  const FLAG_ABORT: bv32 := 0x8
  const FLAG_BUSY: bv32 := 0x10
  const FLAG_136BITS: bv32 := 0x20
  const FLAG_DATA: bv32 := 0x40
  const FLAG_READ: bv32 := 0x80
  const FLAG_WRITE: bv32 := 0x100

  const CMD_DE: bv32 := 0x1
  const CMD_BCE: bv32 := 0x2
  const CMD_DDIR: bv32 := 0x10
  const CMD_MSBS: bv32 := 0x20
  const CMD_DP: bv32 := 0x20_0000

  function CmdType(flags: bv32): bv32 {
    if flags & FLAG_STOP != 0 then 1  // the source compares (0x1 < 0x16) where a shift was meant
    else if flags & FLAG_FS != 0 then 0x2 << 0x16
    else if flags & FLAG_ABORT != 0 then 0x3 << 0x16
    else 0
  }

  function RspType(flags: bv32): bv32 {
    if flags & FLAG_NONE != 0 then 0
    else if flags & FLAG_136BITS != 0 then 1 << 0x10
    else if flags & FLAG_BUSY != 0 then 3 << 0x10
    else 2 << 0x10
  }

  function CmdWord(idx: bv6, flags: bv32, dmaEnable: bool): bv32 {
    var cmdDir := if flags & FLAG_READ != 0 then 0x1 << 0x4 else 0;
    var cmd := ((idx as bv32) << 0x18) | CmdType(flags) | RspType(flags) | cmdDir;
    var cmd := if flags & FLAG_DATA != 0 then cmd | CMD_DP | CMD_MSBS | CMD_BCE else cmd;
    if dmaEnable then cmd | CMD_DE else cmd
  }

  // The SD_CMDRSP_ flags of a command, and the word they are or'ed into
  datatype Flags = Flags(none: bool, stop: bool, fs: bool, abort: bool, busy: bool, long: bool,
                         data: bool, read: bool, write: bool)

  const NO_FLAGS := Flags(false, false, false, false, false, false, false, false, false)

  function Bit(on: bool, flag: bv32): bv32 { if on then flag else 0 }

  function FlagWord(f: Flags): bv32 {
    Bit(f.none, FLAG_NONE) | Bit(f.stop, FLAG_STOP) | Bit(f.fs, FLAG_FS) | Bit(f.abort, FLAG_ABORT)
    | Bit(f.busy, FLAG_BUSY) | Bit(f.long, FLAG_136BITS) | Bit(f.data, FLAG_DATA)
    | Bit(f.read, FLAG_READ) | Bit(f.write, FLAG_WRITE)
  }

  // The fields as the controller decodes them
  datatype Response = NoResponse | Long | Short | ShortBusy  // none, 136 bits, 48 bits, 48 bits with busy
  datatype Type = Normal | Suspend | FunctionSelect | Abort
  datatype Command = Command(idx: bv6, ty: Type, rsp: Response, dataPresent: bool, cardToHost: bool,
                             dmaEnabled: bool, blockCounted: bool)

  function Index(w: bv32): bv6 { ((w >> 0x18) & 0x3F) as bv6 }

  function TypeOf(w: bv32): Type {
    var ty := (w >> 0x16) & 3;
    if ty == 0 then Normal else if ty == 1 then Suspend else if ty == 2 then FunctionSelect else Abort
  }

  function ResponseOf(w: bv32): Response {
    var rsp := (w >> 0x10) & 3;
    if rsp == 0 then NoResponse else if rsp == 1 then Long else if rsp == 2 then Short else ShortBusy
  }

  predicate DataPresent(w: bv32) { w & CMD_DP != 0 }
  predicate CardToHost(w: bv32) { w & CMD_DDIR != 0 }
  predicate DmaEnabled(w: bv32) { w & CMD_DE != 0 }
  predicate BlockCounted(w: bv32) { w & (CMD_MSBS | CMD_BCE) == CMD_MSBS | CMD_BCE }

  function Decode(w: bv32): Command {
    Command(Index(w), TypeOf(w), ResponseOf(w), DataPresent(w), CardToHost(w), DmaEnabled(w), BlockCounted(w))
  }

  function Answer(f: Flags): Response {
    if f.none then NoResponse else if f.long then Long else if f.busy then ShortBusy else Short
  }

  // What the caller of MMC0CmdSend asked for. The bus-suspend flag enables DMA unasked, and selects no type.
  function Meaning(idx: bv6, f: Flags, dmaEnable: bool): Command {
    var ty := if f.stop then Normal else if f.fs then FunctionSelect else if f.abort then Abort else Normal;
    Command(idx, ty, Answer(f), f.data, f.read, dmaEnable || f.stop, f.data)
  }

  // The controller decodes what the caller meant.
  lemma DecodeCmdWord(idx: bv6, f: Flags, dmaEnable: bool)
    ensures Decode(CmdWord(idx, FlagWord(f), dmaEnable)) == Meaning(idx, f, dmaEnable)
  {
    FlagBits(f);
    Decoded(idx, FlagWord(f), dmaEnable);
    var w := CmdWord(idx, FlagWord(f), dmaEnable);
    DecodeOf(idx, (w >> 22) & 3, (w >> 16) & 3, f.data, f.read, dmaEnable || f.stop, w);
  }

  // Each flag is one bit of the flag word.
  lemma FlagBits(f: Flags)
    ensures FlagWord(f) & 0x1 != 0 <==> f.none
    ensures FlagWord(f) & 0x2 != 0 <==> f.stop
    ensures FlagWord(f) & 0x4 != 0 <==> f.fs
    ensures FlagWord(f) & 0x8 != 0 <==> f.abort
    ensures FlagWord(f) & 0x10 != 0 <==> f.busy
    ensures FlagWord(f) & 0x20 != 0 <==> f.long
    ensures FlagWord(f) & 0x40 != 0 <==> f.data
    ensures FlagWord(f) & 0x80 != 0 <==> f.read
    ensures FlagWord(f) & 0x100 != 0 <==> f.write
  {
  }

  lemma NoFlags()
    ensures FlagWord(NO_FLAGS) == 0
  {
  }

  // The whole command word, bit by bit, for any flag word. The bus-suspend flag sets the DMA enable
  // instead of the type.
  lemma Decoded(idx: bv6, flags: bv32, dmaEnable: bool)
    ensures var w := CmdWord(idx, flags, dmaEnable);
      && w >> 24 == idx as bv32
      && (w >> 22) & 3 == (if flags & 0x2 != 0 then 0 else if flags & 0x4 != 0 then 2
                           else if flags & 0x8 != 0 then 3 else 0)
      && (w >> 16) & 3 == (if flags & 0x1 != 0 then 0 else if flags & 0x20 != 0 then 1
                           else if flags & 0x10 != 0 then 3 else 2)
      && w & 0x3C_FFFF == (if flags & 0x40 != 0 then 0x20_0022 else 0) | (if flags & 0x80 != 0 then 0x10 else 0)
                          | (if dmaEnable || flags & 0x2 != 0 then 0x1 else 0)
  {
  }

  // What the controller decodes from a word with these fields
  lemma DecodeOf(idx: bv6, ty: bv32, rsp: bv32, data: bool, read: bool, dma: bool, w: bv32)
    requires w >> 24 == idx as bv32 && (w >> 22) & 3 == ty && (w >> 16) & 3 == rsp
    requires w & 0x3C_FFFF == (if data then 0x20_0022 else 0) | (if read then 0x10 else 0) | (if dma then 0x1 else 0)
    ensures Decode(w) == Command(idx, if ty == 0 then Normal else if ty == 1 then Suspend
                                 else if ty == 2 then FunctionSelect else Abort,
                                 if rsp == 0 then NoResponse else if rsp == 1 then Long
                                 else if rsp == 2 then Short else ShortBusy,
                                 data, read, dma, data)
  {
  }
}
