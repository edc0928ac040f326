// The MMC/SD driver: command and transfer waits on flags raised by interrupt routines, DMA set-up,
// and the block read and write sequences.
module MmcDriver {
  import opened Words
  import opened ParamSets
  import opened MmcHost
  import opened MmcSequence
  import C = MmcCommand

  // A command as the controller sends it to the card, with the response it waits for
  datatype Sent = Sent(idx: bv6, arg: word, rsp: C.Response)

  // struct mmcCmd
  datatype Cmd = Cmd(idx: bv6, flags: C.Flags, arg: word, nblks: nat, rsp: Rsp)

  // The four words of a response
  datatype Rsp = Rsp(r0: word, r1: word, r2: word, r3: word)

  const NO_RSP := Rsp(0, 0, 0, 0)

  // The part of struct mmcCardInfo that the driver uses again
  datatype CardInfo = CardInfo(highCap: bool, blkLen: nat, rca: nat, ocr: word, sdVer: nat, busWidth: nat)

  const NO_INFO := CardInfo(false, 0, 0, 0, 0, 0)

  // Everything the hardware decides, by the serial number of the command: how many idle steps pass
  // before each report, whether the phase succeeds, and the card's response. rsvd is what the
  // uninitialised last member of a parameter set on the stack happens to hold.
  datatype Env = Env(
    card: Card,
    cmdDelay: nat -> nat, cmdOk: nat -> bool, response: nat -> Rsp,
    xferDelay: nat -> nat, xferOk: nat -> bool, dmaDelay: nat -> nat, rsvd: nat -> nat)

  const STAT_CC: bv32 := 0x1
  const STAT_TC: bv32 := 0x2
  const STAT_ERRI: bv32 := 0x8000
  const STAT_CTO: bv32 := 0x1_0000
  const STAT_DTO: bv32 := 0x10_0000

  // Polls of the callback flag that find it clear, when the DMA completion is due in dma steps and
  // the transfer report in xfer steps.
  function Lag(dma: nat, xfer: nat): nat {
    if dma > xfer then dma - xfer else 0
  }

  // A phase that ends in due steps (never, if negative), n steps later; and whether it ends within them
  function StrayAfter(due: int, n: nat): int { if due < n then -1 else due - n }

  predicate Ends(due: int, n: nat) { 0 <= due < n }

  // ---- Waiting for a transfer with another phase in flight ----

  // What a transfer wait starts from: its own phase, due in x steps and to end well or not, a phase that
  // nobody waits for, and the two flags
  datatype Flight = Flight(x: int, xGood: bool, y: int, yGood: bool, comp: bool, timeout: bool)

  // The flags n steps later, if nobody clears them
  function CompAfter(f: Flight, n: nat): bool {
    f.comp || (Ends(f.x, n) && f.xGood) || (Ends(f.y, n) && f.yGood)
  }

  function TimeoutAfter(f: Flight, n: nat): bool {
    f.timeout || (Ends(f.x, n) && !f.xGood) || (Ends(f.y, n) && !f.yGood)
  }

  // The steps until a flag is set; None if that never happens
  function FirstReport(f: Flight): Option<nat> {
    if f.comp || f.timeout then Some(0)
    else if f.x < 0 && f.y < 0 then None
    else Some(1 + if f.x < 0 then f.y else if f.y < 0 || f.x <= f.y then f.x else f.y)
  }

  // What is in flight once the flags found after n steps have been cleared
  function Remaining(f: Flight, n: nat): Flight {
    f.(x := StrayAfter(f.x, n), y := StrayAfter(f.y, n), comp := false, timeout := false)
  }

  // The polls for a callback that is due d steps after the start of the phase, made from its n-th step on
  function PollsMade(d: int, n: nat): nat {
    if d < 0 || d + 1 - n > 0xFFFF then 0xFFFF else if d + 1 <= n then 0 else d + 1 - n
  }

  // What the wait reports: success if it has found the completion flag alone, save that a callback found on
  // the last poll makes it failure
  function WaitValue(f: Flight, n: nat, data: bool, d: int): nat {
    if CompAfter(f, n) && !TimeoutAfter(f, n) && !(data && d + 1 - n == 0xFFFF) then 1 else 0
  }

  // A wait that is alone with its phase reports how that phase ended.
  lemma WaitAlone(f: Flight, data: bool, d: int)
    requires f.x >= 0 && f.y == -1 && !f.comp && !f.timeout && (d >= 0 <==> data && f.xGood) && d >= -1
    ensures FirstReport(f) == Some(f.x + 1)
    ensures WaitValue(f, f.x + 1, data, d) == if f.xGood && !(data && Lag(d, f.x) == 0xFFFF) then 1 else 0
    ensures Remaining(f, f.x + 1) == Flight(-1, f.xGood, -1, f.yGood, false, false)
    ensures d >= 0 ==> (PollsMade(d, f.x + 1) + f.x + 1 > d <==> Lag(d, f.x) <= 0xFFFF)
  {
  }

  lemma NothingReported(f: Flight, n: nat)
    ensures FirstReport(f).Some? && n < FirstReport(f).value ==> !CompAfter(f, n) && !TimeoutAfter(f, n)
    ensures FirstReport(f).Some? && n == FirstReport(f).value ==> CompAfter(f, n) || TimeoutAfter(f, n)
    ensures FirstReport(f).None? ==> !CompAfter(f, n) && !TimeoutAfter(f, n)
  {
  }

  // The hardware completes every DMA transfer by the last poll the driver makes for it.
  ghost predicate Timely(e: Env) {
    forall k: nat :: Lag(e.dmaDelay(k), e.xferDelay(k)) <= 0xFFFF
  }

  // A completion found on that very poll counts as a failure.
  predicate OnLastPoll(e: Env, k: nat) { Lag(e.dmaDelay(k), e.xferDelay(k)) == 0xFFFF }

  class Mmc {
    const env: Env

    // hardware
    var store: Store
    var regs: Regs
    var sent: seq<Sent>
    var cmdDue: int   // steps until the command phase is reported, -1 if none is in flight
    var xferDue: int
    var dmaDue: int
    var xferGood: bool  // how the transfer phase in flight will end
    // the same of a transfer phase that was in flight when a later command was written
    var strayDue: int
    var strayGood: bool

    // globals set by interrupt routines
    var cmdCompFlag: bool
    var cmdTimeout: bool
    var xferCompFlag: bool
    var dataTimeout: bool
    var callbackOccured: bool

    // mmcCtrlInfo and mmcCardInfo
    var dmaEnable: bool
    var info: CardInfo

    constructor (env: Env, store: Store, regs: Regs)
      ensures this.env == env && this.store == store && this.regs == regs
      ensures Idle() && sent == [] && !dmaEnable
    {
      this.env, this.store, this.regs, sent := env, store, regs, [];
      cmdDue, xferDue, dmaDue, xferGood, strayDue, strayGood := -1, -1, -1, false, -1, false;
      cmdCompFlag, cmdTimeout, xferCompFlag, dataTimeout, callbackOccured := false, false, false, false, false;
      dmaEnable, info := false, NO_INFO;
    }

    ghost predicate NoFlags()
      reads this`cmdCompFlag, this`cmdTimeout, this`xferCompFlag, this`dataTimeout
    {
      !cmdCompFlag && !cmdTimeout && !xferCompFlag && !dataTimeout
    }

    // Nothing in flight and no command or transfer flag left over.
    ghost predicate Idle()
      reads this`cmdCompFlag, this`cmdTimeout, this`xferCompFlag, this`dataTimeout
      reads this`cmdDue, this`xferDue, this`dmaDue, this`strayDue
    {
      NoFlags() && cmdDue == -1 && xferDue == -1 && dmaDue == -1 && strayDue == -1
    }

    // No command or data transfer in flight and no command flag left over. A busy phase that nobody
    // waits for may go on, or its end may have been reported.
    ghost predicate Resting()
      reads this`cmdCompFlag, this`cmdTimeout, this`cmdDue, this`xferDue, this`dmaDue, this`strayDue
    {
      && !cmdCompFlag && !cmdTimeout && cmdDue == -1 && dmaDue == -1
      && -1 <= xferDue && -1 <= strayDue && (xferDue == -1 || strayDue == -1)
    }

    function Serial(): nat
      requires sent != []
      reads this`sent
    {
      |sent| - 1
    }

    // Whether the transfer phase of the last command, its data phase or a busy phase, will succeed
    predicate TransferSucceeds()
      requires sent != [] && WellFormed(store)
      reads this`sent, this`store, this`regs
    {
      env.xferOk(Serial()) && (regs.cmd.dataPresent ==> Moved(env.card, store, regs).Some?)
    }

    // mmc0_isr, without its card insertion and removal branches
    method Mmc0Isr(status: bv32)
      modifies this`cmdCompFlag, this`cmdTimeout, this`xferCompFlag, this`dataTimeout
      ensures cmdCompFlag == (old(cmdCompFlag) || status & 0x1 != 0)
      ensures xferCompFlag == (old(xferCompFlag) || status & 0x2 != 0)
      ensures cmdTimeout == (old(cmdTimeout) || (status & 0x8000 != 0 && status & 0x1_0000 != 0))
      ensures dataTimeout == (old(dataTimeout) || (status & 0x8000 != 0 && status & 0x10_0000 != 0))
    {
      if status & STAT_CC != 0 { cmdCompFlag := true; }
      if status & STAT_ERRI != 0 {
        if status & STAT_CTO != 0 { cmdTimeout := true; }
        if status & STAT_DTO != 0 { dataTimeout := true; }
      }
      if status & STAT_TC != 0 { xferCompFlag := true; }
    }

    // The command phase is reported in one interrupt.
    method ReportCommand(ok: bool)
      modifies this`cmdCompFlag, this`cmdTimeout, this`xferCompFlag, this`dataTimeout
      ensures cmdCompFlag == (old(cmdCompFlag) || ok) && cmdTimeout == (old(cmdTimeout) || !ok)
      ensures xferCompFlag == old(xferCompFlag) && dataTimeout == old(dataTimeout)
    {
      var error := STAT_ERRI | STAT_CTO;
      assert error == 0x1_8000;
      Mmc0Isr(if ok then STAT_CC else error);
    }

    // The transfer phase is reported in one interrupt.
    method ReportTransfer(ok: bool)
      modifies this`cmdCompFlag, this`cmdTimeout, this`xferCompFlag, this`dataTimeout
      ensures xferCompFlag == (old(xferCompFlag) || ok) && dataTimeout == (old(dataTimeout) || !ok)
      ensures cmdCompFlag == old(cmdCompFlag) && cmdTimeout == old(cmdTimeout)
    {
      var error := STAT_ERRI | STAT_DTO;
      assert error == 0x10_8000;
      Mmc0Isr(if ok then STAT_TC else error);
    }

    // The transfer phase that follows an answered command with data or a busy response
    ghost predicate TransferStarted()
      requires sent != [] && WellFormed(store)
      reads this`sent, this`store, this`regs, this`xferDue, this`dmaDue, this`xferGood
    {
      var k, ok := Serial(), env.cmdOk(Serial());
      && xferDue == (if ok && (regs.cmd.dataPresent || regs.cmd.rsp == C.ShortBusy) then env.xferDelay(k) else -1)
      && xferGood == TransferSucceeds()
      && dmaDue == (if ok && regs.cmd.dataPresent && xferGood then env.dmaDelay(k) else -1)
    }

    // One step of the hardware while a command phase is in flight
    method CommandStep()
      requires sent != [] && WellFormed(store)
      requires cmdDue >= 0 && xferDue == dmaDue == -1
      modifies this`cmdDue, this`xferDue, this`dmaDue, this`xferGood
      modifies this`cmdCompFlag, this`cmdTimeout, this`xferCompFlag, this`dataTimeout
      ensures cmdDue == old(cmdDue) - 1
      ensures xferCompFlag == old(xferCompFlag) && dataTimeout == old(dataTimeout)
      ensures cmdDue >= 0 ==> xferDue == dmaDue == -1
      ensures cmdDue >= 0 ==> cmdCompFlag == old(cmdCompFlag) && cmdTimeout == old(cmdTimeout)
      ensures cmdDue == -1 ==> TransferStarted()
      ensures cmdDue == -1 ==> cmdCompFlag == (old(cmdCompFlag) || env.cmdOk(Serial()))
      ensures cmdDue == -1 ==> cmdTimeout == (old(cmdTimeout) || !env.cmdOk(Serial()))
    {
      cmdDue := cmdDue - 1;
      if cmdDue == -1 {
        ReportCommand(env.cmdOk(|sent| - 1));
        StartTransfer();
      }
    }

    method StartTransfer()
      requires sent != [] && WellFormed(store)
      requires xferDue == dmaDue == -1
      modifies this`xferDue, this`dmaDue, this`xferGood
      ensures TransferStarted()
    {
      var k := |sent| - 1;
      xferGood := TransferSucceeds();
      if env.cmdOk(k) && (regs.cmd.dataPresent || regs.cmd.rsp == C.ShortBusy) {
        xferDue := env.xferDelay(k);
        if regs.cmd.dataPresent && xferGood { dmaDue := env.dmaDelay(k); }
      }
    }

    // A transfer phase nobody waits for comes one step nearer its end, or ends.
    method StrayStep()
      requires strayDue >= -1
      modifies this`strayDue
      modifies this`cmdCompFlag, this`cmdTimeout, this`xferCompFlag, this`dataTimeout
      ensures strayDue == StrayAfter(old(strayDue), 1)
      ensures cmdCompFlag == old(cmdCompFlag) && cmdTimeout == old(cmdTimeout)
      ensures xferCompFlag == (old(xferCompFlag) || (Ends(old(strayDue), 1) && strayGood))
      ensures dataTimeout == (old(dataTimeout) || (Ends(old(strayDue), 1) && !strayGood))
    {
      if strayDue == 0 { ReportTransfer(strayGood); }
      if strayDue >= 0 { strayDue := strayDue - 1; }
    }

    // The transfer report comes one step nearer, or happens.
    method TransferReportStep()
      requires WellFormed(store) && xferDue >= 0
      modifies this`xferDue
      modifies this`cmdCompFlag, this`cmdTimeout, this`xferCompFlag, this`dataTimeout
      ensures cmdCompFlag == old(cmdCompFlag) && cmdTimeout == old(cmdTimeout)
      ensures xferDue == old(xferDue) - 1
      ensures xferCompFlag == (old(xferCompFlag) || (old(xferDue) == 0 && xferGood))
      ensures dataTimeout == (old(dataTimeout) || (old(xferDue) == 0 && !xferGood))
    {
      if xferDue == 0 {
        ReportTransfer(xferGood);
      }
      xferDue := xferDue - 1;
    }

    // The DMA completion comes one step nearer, or happens: the data is where it belongs.
    method DmaStep()
      requires WellFormed(store) && dmaDue >= 0
      requires Moved(env.card, store, regs).Some?
      modifies this`store, this`regs, this`dmaDue, this`callbackOccured
      ensures WellFormed(store)
      ensures dmaDue == old(dmaDue) - 1
      ensures callbackOccured == (old(callbackOccured) || old(dmaDue) == 0)
      ensures old(dmaDue) == 0 ==> store == Moved(env.card, old(store), old(regs)).value
      ensures old(dmaDue) == 0 ==> regs == old(regs).(events := old(regs).events - {RunningChannel(old(regs))})
      ensures old(dmaDue) != 0 ==> store == old(store) && regs == old(regs)
    {
      if dmaDue == 0 {
        store := Moved(env.card, store, regs).value;
        Callback(RunningChannel(regs));
      }
      dmaDue := dmaDue - 1;
    }

    static function RunningChannel(r: Regs): nat {
      Channel(r.cmd.cardToHost)
    }

    // callback, run by the DMA completion interrupt
    method Callback(tcc: nat)
      modifies this`regs, this`callbackOccured
      ensures callbackOccured && regs == old(regs).(events := old(regs).events - {tcc})
    {
      callbackOccured := true;
      regs := regs.(events := regs.events - {tcc});
    }

    // mmc0_get_cmd_status. Meanwhile a phase nobody waits for may end.
    method GetCmdStatus() returns (status: nat)
      requires sent != [] && WellFormed(store)
      requires cmdDue >= 0 && xferDue == dmaDue == -1 && !cmdCompFlag && !cmdTimeout && strayDue >= -1
      modifies this`cmdDue, this`xferDue, this`dmaDue, this`xferGood, this`strayDue
      modifies this`cmdCompFlag, this`cmdTimeout, this`xferCompFlag, this`dataTimeout
      ensures !cmdCompFlag && !cmdTimeout && cmdDue == -1 && TransferStarted()
      ensures strayDue == StrayAfter(old(strayDue), old(cmdDue) + 1)
      ensures xferCompFlag == (old(xferCompFlag) || (Ends(old(strayDue), old(cmdDue) + 1) && strayGood))
      ensures dataTimeout == (old(dataTimeout) || (Ends(old(strayDue), old(cmdDue) + 1) && !strayGood))
      ensures status == if env.cmdOk(Serial()) then 1 else 0
    {
      status := 0;
      ghost var n := 0;
      while !cmdCompFlag && !cmdTimeout
        invariant n == old(cmdDue) - cmdDue && strayDue == StrayAfter(old(strayDue), n)
        invariant xferCompFlag == (old(xferCompFlag) || (Ends(old(strayDue), n) && strayGood))
        invariant dataTimeout == (old(dataTimeout) || (Ends(old(strayDue), n) && !strayGood))
        invariant cmdDue >= 0 ==> xferDue == dmaDue == -1 && !cmdCompFlag && !cmdTimeout
        invariant cmdDue < 0 ==>
          && cmdDue == -1 && TransferStarted()
          && cmdCompFlag == env.cmdOk(Serial()) && cmdTimeout == !env.cmdOk(Serial())
        decreases cmdDue
      {
        CommandStep();
        StrayStep();
        n := n + 1;
      }
      if cmdCompFlag {
        status := 1;
        cmdCompFlag := false;
      }
      if cmdTimeout {
        status := 0;
        cmdTimeout := false;
      }
    }

    // What a transfer wait may find: any phases in flight, or none
    ghost predicate Waiting()
      requires WellFormed(store)
      reads this
    {
      && cmdDue == -1 && !cmdCompFlag && !cmdTimeout && xferDue >= -1 && dmaDue >= -1 && strayDue >= -1
      && (dmaDue >= 0 ==> Moved(env.card, store, regs).Some?)
    }

    // Only the phase that belongs to the wait can end it, and if it moves data a DMA completion is due.
    ghost predicate Alone()
      reads this
    {
      && NoFlags() && strayDue == -1 && !callbackOccured
      && (dmaDue >= 0 <==> regs.cmd.dataPresent && xferGood && xferDue >= 0)
    }

    // A transfer phase is in flight, with the DMA completion pending just when it will move data.
    ghost predicate InTransfer()
      requires WellFormed(store)
      reads this
    {
      Waiting() && Alone() && xferDue >= 0
    }

    function Now(): Flight
      reads this`xferDue, this`xferGood, this`strayDue, this`strayGood, this`xferCompFlag, this`dataTimeout
    {
      Flight(xferDue, xferGood, strayDue, strayGood, xferCompFlag, dataTimeout)
    }

    // The registers after the engine has run: completion disables the channel's event.
    static function AfterDma(r: Regs): Regs {
      r.(events := r.events - {RunningChannel(r)})
    }

    // Where the data is, some steps into a phase that began with the completion due in d steps
    ghost predicate MovedBy(steps: nat, d: int, s: Store, r: Regs)
      requires WellFormed(s) && (d >= 0 ==> Moved(env.card, s, r).Some?)
      reads this`store, this`regs, this`dmaDue
    {
      if d < 0 then dmaDue == d && store == s && regs == r
      else if steps <= d then dmaDue == d - steps && store == s && regs == r
      else dmaDue == -1 && store == Moved(env.card, s, r).value && regs == AfterDma(r)
    }

    // ... and whether the callback has run
    ghost predicate Progress(steps: nat, d: int, s: Store, r: Regs)
      requires WellFormed(s) && (d >= 0 ==> Moved(env.card, s, r).Some?)
      reads this`store, this`regs, this`dmaDue, this`callbackOccured
    {
      MovedBy(steps, d, s, r) && callbackOccured == Ends(d, steps)
    }

    // What no transfer wait changes, whatever ends it
    ghost predicate Framed(s: Store, r: Regs)
      reads this`store, this`regs, this`dmaDue
    {
      && WellFormed(store) && store.view == s.view && |store.ram| == |s.ram| && |store.blocks| == |s.blocks|
      && regs.cmd == r.cmd && (r.cmd.cardToHost ==> store.blocks == s.blocks)
      && (dmaDue >= 0 ==> Moved(env.card, store, regs).Some?)
    }

    // Where the phases and the flags are n steps after f
    ghost predicate Reported(n: nat, f: Flight)
      reads this`xferDue, this`xferGood, this`strayDue, this`strayGood, this`xferCompFlag, this`dataTimeout
    {
      Now() == Flight(StrayAfter(f.x, n), f.xGood, StrayAfter(f.y, n), f.yGood, CompAfter(f, n), TimeoutAfter(f, n))
    }

    // A transfer wait under way: n steps after f, t steps after the phase began with data due in d
    ghost predicate Going(n: nat, f: Flight, t: nat, d: int, s: Store, r: Regs)
      requires WellFormed(s) && (d >= 0 ==> Moved(env.card, s, r).Some?)
      reads this
    {
      && cmdDue == -1 && !cmdCompFlag && !cmdTimeout && f.x >= -1 && f.y >= -1 && d >= -1
      && WellFormed(store) && Reported(n, f) && Progress(t, d, s, r)
    }

    lemma MovedFrames(steps: nat, d: int, s: Store, r: Regs)
      requires WellFormed(s) && (d >= 0 ==> Moved(env.card, s, r).Some?) && MovedBy(steps, d, s, r) && d >= -1
      ensures Framed(s, r) && dmaDue >= -1
    {
    }

    // One step of the hardware while the driver waits for a transfer
    method TransferStep(ghost n: nat, ghost f: Flight, ghost t: nat, ghost d: int, ghost s: Store, ghost r: Regs)
      requires WellFormed(s) && (d >= 0 ==> Moved(env.card, s, r).Some?) && Going(n, f, t, d, s, r)
      modifies this`store, this`regs, this`xferDue, this`dmaDue, this`strayDue
      modifies this`cmdCompFlag, this`cmdTimeout, this`xferCompFlag, this`dataTimeout, this`callbackOccured
      ensures Going(n + 1, f, t + 1, d, s, r)
    {
      ReportStep(n, f);
      if dmaDue >= 0 { DmaStep(); }
    }

    method ReportStep(ghost n: nat, ghost f: Flight)
      requires WellFormed(store) && Reported(n, f) && f.x >= -1 && f.y >= -1
      modifies this`xferDue, this`strayDue
      modifies this`cmdCompFlag, this`cmdTimeout, this`xferCompFlag, this`dataTimeout
      ensures Reported(n + 1, f) && cmdCompFlag == old(cmdCompFlag) && cmdTimeout == old(cmdTimeout)
    {
      if xferDue >= 0 { TransferReportStep(); }
      StrayStep();
    }

    // Line 95: the loop that waits for a report, whichever phase it is of. It does not end if there is none.
    method AwaitReport(ghost f: Flight, ghost d: int, ghost s: Store, ghost r: Regs) returns (hangs: bool)
      requires WellFormed(s) && (d >= 0 ==> Moved(env.card, s, r).Some?) && Going(0, f, 0, d, s, r)
      modifies this`store, this`regs, this`xferDue, this`dmaDue, this`strayDue
      modifies this`cmdCompFlag, this`cmdTimeout, this`xferCompFlag, this`dataTimeout, this`callbackOccured
      ensures hangs == FirstReport(f).None?
      ensures var n := if hangs then 0 else FirstReport(f).value; Going(n, f, n, d, s, r)
    {
      ghost var n := 0;
      while !xferCompFlag && !dataTimeout
        invariant Going(n, f, n, d, s, r) && n <= if FirstReport(f).Some? then FirstReport(f).value else 0
        decreases xferDue + strayDue + 2
      {
        NothingReported(f, n);
        if xferDue < 0 && strayDue < 0 { return true; }
        TransferStep(n, f, n, d, s, r);
        n := n + 1;
      }
      NothingReported(f, n);
      return false;
    }

    // Lines 106-107: the loop that waits for the callback. The post-decrement of the poll that finds the
    // counter exhausted wraps it.
    method PollCallback(ghost f: Flight, ghost n: nat, ghost d: int, ghost s: Store, ghost r: Regs)
      returns (timeOut: nat)
      requires WellFormed(s) && (d >= 0 ==> Moved(env.card, s, r).Some?) && Going(0, f, n, d, s, r)
      modifies this`store, this`regs, this`xferDue, this`dmaDue, this`strayDue
      modifies this`cmdCompFlag, this`cmdTimeout, this`xferCompFlag, this`dataTimeout, this`callbackOccured
      ensures var polls := PollsMade(d, n);
        Going(polls, f, n + polls, d, s, r) && timeOut == if Ends(d, n + polls) then 0xFFFF - polls else 0xFFFF_FFFF
    {
      timeOut := 0xFFFF;
      ghost var polls := 0;
      while !callbackOccured && timeOut != 0
        invariant timeOut == 0xFFFF - polls && polls <= PollsMade(d, n) && Going(polls, f, n + polls, d, s, r)
        decreases timeOut
      {
        timeOut := timeOut - 1;
        TransferStep(polls, f, n + polls, d, s, r);
        polls := polls + 1;
      }
      if !callbackOccured { timeOut := 0xFFFF_FFFF; }
    }

    // A transfer wait that is over, n steps after f and the polls for the callback later
    ghost predicate WaitedOut(f: Flight, n: nat, data: bool, d: int, s: Store, r: Regs)
      requires WellFormed(s) && (d >= 0 ==> Moved(env.card, s, r).Some?)
      reads this
    {
      var polls := if data then PollsMade(d, n) else 0;
      && cmdDue == -1 && !cmdCompFlag && !cmdTimeout && !callbackOccured
      && Reported(polls, Remaining(f, n)) && MovedBy(n + polls, d, s, r)
    }

    // mmc0_get_xfer_status; None if it never returns. It returns exactly if a flag is set or a phase in
    // flight, and reports whichever phase ends first. By then the data of its own transfer is where the
    // DMA engine has got to: all of it unless the completion lags the report by more than 0xFFFF polls.
    method GetXferStatus() returns (status: Option<nat>)
      requires WellFormed(store) && Waiting() && !callbackOccured && (dmaDue >= 0 ==> regs.cmd.dataPresent)
      modifies this`store, this`regs, this`xferDue, this`dmaDue, this`strayDue, this`dmaEnable
      modifies this`cmdCompFlag, this`cmdTimeout, this`xferCompFlag, this`dataTimeout, this`callbackOccured
      ensures Framed(old(store), old(regs)) && dmaDue >= -1
      ensures match FirstReport(old(Now()))
        case None =>
          && status == None && Now() == old(Now()) && dmaEnable == old(dmaEnable) && !cmdCompFlag && !cmdTimeout
          && Progress(0, old(dmaDue), old(store), old(regs))
        case Some(n) =>
          && status == Some(WaitValue(old(Now()), n, old(regs).cmd.dataPresent, old(dmaDue))) && !dmaEnable
          && WaitedOut(old(Now()), n, old(regs).cmd.dataPresent, old(dmaDue), old(store), old(regs))
    {
      ghost var f, d, s, r := Now(), dmaDue, store, regs;
      var hangs := AwaitReport(f, d, s, r);
      if hangs {
        MovedFrames(0, d, s, r);
        return None;
      }
      ghost var n := FirstReport(f).value;
      var value := Collect(f, n, d, s, r);
      MovedFrames(n + if r.cmd.dataPresent then PollsMade(d, n) else 0, d, s, r);
      dmaEnable := false;
      return Some(value);
    }

    // Lines 96-109, once a report has come in
    method Collect(ghost f: Flight, ghost n: nat, ghost d: int, ghost s: Store, ghost r: Regs) returns (value: nat)
      requires WellFormed(s) && (d >= 0 ==> Moved(env.card, s, r).Some?) && Going(n, f, n, d, s, r)
      requires d >= 0 ==> r.cmd.dataPresent
      modifies this`store, this`regs, this`xferDue, this`dmaDue, this`strayDue
      modifies this`cmdCompFlag, this`cmdTimeout, this`xferCompFlag, this`dataTimeout, this`callbackOccured
      ensures value == WaitValue(f, n, r.cmd.dataPresent, d) && WellFormed(store)
      ensures WaitedOut(f, n, r.cmd.dataPresent, d, s, r)
    {
      MovedFrames(n, d, s, r);
      value := TakeReport();
      if regs.cmd.dataPresent {
        var last := TakeCallback(Remaining(f, n), n, d, s, r);
        if last { value := 0; }
      }
    }

    // Lines 106-109; last says that the poll that found the callback was the last one.
    method TakeCallback(ghost f: Flight, ghost n: nat, ghost d: int, ghost s: Store, ghost r: Regs) returns (last: bool)
      requires WellFormed(s) && (d >= 0 ==> Moved(env.card, s, r).Some?) && Going(0, f, n, d, s, r)
      modifies this`store, this`regs, this`xferDue, this`dmaDue, this`strayDue
      modifies this`cmdCompFlag, this`cmdTimeout, this`xferCompFlag, this`dataTimeout, this`callbackOccured
      ensures last <==> d + 1 - n == 0xFFFF
      ensures cmdDue == -1 && !cmdCompFlag && !cmdTimeout && !callbackOccured && WellFormed(store)
      ensures Reported(PollsMade(d, n), f) && MovedBy(n + PollsMade(d, n), d, s, r)
    {
      var timeOut := PollCallback(f, n, d, s, r);
      callbackOccured := false;
      last := timeOut == 0;
    }

    // Lines 96-103
    method TakeReport() returns (value: nat)
      modifies this`xferCompFlag, this`dataTimeout
      ensures !xferCompFlag && !dataTimeout
      ensures value == if old(xferCompFlag) && !old(dataTimeout) then 1 else 0
    {
      value := 0;
      if xferCompFlag {
        value := 1;
        xferCompFlag := false;
      }
      if dataTimeout {
        value := 0;
        dataTimeout := false;
      }
    }

    // MMCXferSetup. (What it clears and programs before a data command.)
    method XferSetup(read: bool, ptr: word, blkSize: nat, nBlks: nat)
      requires blkSize < 0x1000
      modifies this`callbackOccured, this`xferCompFlag, this`regs, this`dmaEnable
      ensures !callbackOccured && !xferCompFlag && dmaEnable
      ensures regs == SetUp(old(regs), read, ptr, blkSize, nBlks, U16(env.rsvd(|sent|)))
    {
      callbackOccured := false;
      xferCompFlag := false;
      var ch := Channel(read);
      var p := Params(read, ptr, blkSize, nBlks, U16(env.rsvd(|sent|)));
      regs := regs.(params := regs.params[ch := Pack(p)]);
      regs := regs.(events := regs.events + {ch});
      dmaEnable := true;
      regs := regs.(blk := BlkLen(regs.blk, blkSize));
    }

    // MMC0CmdSend. A transfer phase still in flight goes on without anybody waiting for it.
    method CmdSend(c: Cmd) returns (status: nat, rsp: Rsp)
      requires WellFormed(store) && Resting()
      modifies this`regs, this`sent, this`cmdDue, this`xferDue, this`dmaDue, this`xferGood
      modifies this`strayDue, this`strayGood
      modifies this`cmdCompFlag, this`cmdTimeout, this`xferCompFlag, this`dataTimeout
      ensures sent == old(sent) + [Sent(c.idx, c.arg, C.Answer(c.flags))]
      ensures !cmdCompFlag && !cmdTimeout && cmdDue == -1 && TransferStarted()
      ensures status == if env.cmdOk(|old(sent)|) then 1 else 0
      ensures rsp == if status == 1 then env.response(|old(sent)|) else c.rsp
      ensures regs == Issued(old(regs), c.idx, c.flags, c.arg, c.nblks, dmaEnable)
      ensures Strayed(old(LeftDue()), old(LeftGood()), env.cmdDelay(|old(sent)|) + 1,
                      old(xferCompFlag), old(dataTimeout))
    {
      Issue(c);
      status := GetCmdStatus();
      rsp := if status == 1 then env.response(|sent| - 1) else c.rsp;
    }

    // The command word is composed and written.
    method Issue(c: Cmd)
      requires WellFormed(store) && Resting()
      modifies this`regs, this`sent, this`cmdDue, this`xferDue, this`strayDue, this`strayGood
      ensures sent == old(sent) + [Sent(c.idx, c.arg, C.Answer(c.flags))]
      ensures cmdDue == env.cmdDelay(|old(sent)|) && xferDue == -1
      ensures regs == Issued(old(regs), c.idx, c.flags, c.arg, c.nblks, dmaEnable)
      ensures strayDue == old(LeftDue()) && strayGood == old(LeftGood())
    {
      var n := if c.flags.data then c.nblks else 0;
      var w := C.CmdWord(c.idx, C.FlagWord(c.flags), dmaEnable);
      C.DecodeCmdWord(c.idx, c.flags, dmaEnable);
      regs := regs.(blk := regs.blk % TWO16 + TWO16 * U16(n), arg := c.arg, cmd := C.Decode(w));
      sent := sent + [Sent(regs.cmd.idx, regs.arg, regs.cmd.rsp)];
      strayDue, strayGood, xferDue := LeftDue(), LeftGood(), -1;
      cmdDue := env.cmdDelay(|sent| - 1);
    }

    // The phase that goes astray when the next command is written
    function LeftDue(): int
      reads this`xferDue, this`strayDue
    {
      if xferDue >= 0 then xferDue else strayDue
    }

    function LeftGood(): bool
      reads this`xferDue, this`xferGood, this`strayGood
    {
      if xferDue >= 0 then xferGood else strayGood
    }

    // The transfer flags and the stray phase n steps later
    ghost predicate Strayed(due: int, good: bool, n: nat, comp: bool, timeout: bool)
      reads this`strayDue, this`strayGood, this`xferCompFlag, this`dataTimeout
    {
      && strayDue == StrayAfter(due, n) && strayGood == good
      && xferCompFlag == (comp || (Ends(due, n) && good)) && dataTimeout == (timeout || (Ends(due, n) && !good))
    }

    // A command without data and without a busy phase leaves nothing in flight.
    lemma PlainDone(r: Regs, c: Cmd, de: bool)
      requires sent != [] && WellFormed(store) && TransferStarted()
      requires !c.flags.busy && !c.flags.data
      requires regs == Issued(r, c.idx, c.flags, c.arg, c.nblks, de)
      ensures xferDue == dmaDue == -1
    {
    }

    // An answered busy command has a transfer phase without data, an unanswered one none.
    lemma BusyStarted(r: Regs, c: Cmd, de: bool)
      requires sent != [] && WellFormed(store) && TransferStarted()
      requires c.flags == C.NO_FLAGS.(busy := true)
      requires regs == Issued(r, c.idx, c.flags, c.arg, c.nblks, de)
      ensures xferDue == (if env.cmdOk(Serial()) then env.xferDelay(Serial()) else -1)
      ensures dmaDue == -1 && !regs.cmd.dataPresent && (xferGood <==> env.xferOk(Serial()))
    {
    }

    // MMCStopCmdSend. The status of the command itself is not looked at: if CMD12 is not answered, no
    // busy phase follows and the wait for its end does not return.
    method StopCmdSend() returns (status: Option<nat>)
      requires WellFormed(store) && Idle() && !callbackOccured && !dmaEnable
      modifies this
      ensures WellFormed(store) && Idle() && !callbackOccured && !dmaEnable
      ensures sent == old(sent) + [Sent(12, 0, C.ShortBusy)] && store == old(store) && info == old(info)
      ensures status ==
        if !env.cmdOk(|old(sent)|) then None else Some(if env.xferOk(|old(sent)|) then 1 else 0)
    {
      var cmd := Cmd(12, C.NO_FLAGS.(busy := true), 0, 0, NO_RSP);
      ghost var r, de := regs, dmaEnable;
      var _, _ := CmdSend(cmd);
      BusyStarted(r, cmd, de);
      ghost var f := Now();
      if f.x >= 0 { WaitAlone(f, false, -1); }
      status := GetXferStatus();
    }

    // CP15DCacheCleanBuff: dirty data reaches the RAM that the DMA engine reads.
    method CleanBuff(ptr: nat, len: nat)
      requires WellFormed(store) && ptr + len <= |store.ram|
      modifies this`store
      ensures WellFormed(store) && store == Cleaned(old(store), ptr, len)
    {
      store := Cleaned(store, ptr, len);
    }

    // CP15DCacheFlushBuff: the CPU stops seeing stale copies of the RAM.
    method FlushBuff(ptr: nat, len: nat)
      requires WellFormed(store) && ptr + len <= |store.ram|
      modifies this`store
      ensures WellFormed(store) && store == Invalidated(old(store), ptr, len)
    {
      store := Invalidated(store, ptr, len);
    }

    function Address(block: word): word
      reads this`info
    {
      if info.highCap then block else block * info.blkLen % TWO32
    }

    // Whether the data phase of a transfer of n blocks at an address, commanded by the k-th command, will
    // move data, and what the whole operation returns; decided by the hardware alone
    ghost predicate MovesAt(k: nat, address: word, n: nat)
      requires WellFormed(store)
      reads this`store
    {
      env.cmdOk(k) && env.xferOk(k) && Reachable(env.card, store, address, n)
    }

    ghost function Outcome(k: nat, address: word, n: nat): Option<nat>
      requires WellFormed(store)
      reads this`store
    {
      if !MovesAt(k, address, n) || OnLastPoll(env, k) then Some(0)
      else if n <= 1 then Some(1)
      else if !env.cmdOk(k + 1) then None
      else Some(if env.xferOk(k + 1) then 1 else 0)
    }

    // The commands of a block operation: the stop command follows several blocks that have moved, unless
    // that was noticed on the last poll only.
    ghost function Trace(read: bool, address: word, n: nat): seq<Sent>
      requires WellFormed(store)
      reads this`sent, this`store
    {
      [Sent(Opcode(read, n), address, C.Short)]
      + if n > 1 && MovesAt(|sent|, address, n) && !OnLastPoll(env, |sent|) then [Sent(12, 0, C.ShortBusy)] else []
    }

    // The data phase after a reported data command: in flight, and due to move data just when it will succeed.
    lemma DataStarted(moved: Option<Store>)
      requires sent != [] && WellFormed(store) && TransferStarted() && NoFlags() && cmdDue == -1 && strayDue == -1
      requires !callbackOccured && regs.cmd.dataPresent && Moved(env.card, store, regs) == moved
      ensures !env.cmdOk(Serial()) ==> Idle()
      ensures env.cmdOk(Serial()) ==>
        && InTransfer() && xferDue == env.xferDelay(Serial())
        && xferGood == (env.xferOk(Serial()) && moved.Some?)
        && dmaDue == if xferGood then env.dmaDelay(Serial()) else -1
    {
    }

    // The common tail of MMCWriteCmdSend and MMCReadCmdSend: wait for the data phase, then stop the
    // card after a multiple-block transfer.
    method FinishTransfer(nblks: word) returns (status: Option<nat>)
      requires WellFormed(store) && InTransfer() && regs.cmd.dataPresent
      requires xferGood ==> Lag(dmaDue, xferDue) <= 0xFFFF
      modifies this
      ensures WellFormed(store) && Idle() && !callbackOccured && !dmaEnable && info == old(info)
      ensures store == if old(dmaDue) >= 0 then old(Moved(env.card, store, regs)).value else old(store)
      ensures var noticed := old(xferGood && Lag(dmaDue, xferDue) < 0xFFFF);
        && sent == old(sent) + (if noticed && nblks > 1 then [Sent(12, 0, C.ShortBusy)] else [])
        && status ==
        if !noticed then Some(0)
        else if nblks <= 1 then Some(1)
        else if !env.cmdOk(|old(sent)|) then None
        else Some(if env.xferOk(|old(sent)|) then 1 else 0)
    {
      WaitAlone(Now(), true, dmaDue);
      status := GetXferStatus();
      if status == Some(0) || nblks <= 1 { return; }
      status := StopCmdSend();
    }

    // Set up a transfer and issue the command that starts it. The transfer flags may show the end of a
    // phase that was in flight before.
    method StartData(read: bool, ptr: word, blkSize: nat, c: Cmd) returns (status: nat)
      requires WellFormed(store) && Resting() && blkSize < 0x1000
      modifies this
      ensures store == old(store) && info == old(info) && dmaEnable && !callbackOccured
      ensures sent == old(sent) + [Sent(c.idx, c.arg, C.Answer(c.flags))]
      ensures !cmdCompFlag && !cmdTimeout && cmdDue == -1 && TransferStarted()
      ensures status == if env.cmdOk(|old(sent)|) then 1 else 0
      ensures var rsvd := U16(env.rsvd(|old(sent)|));
        regs == Issued(SetUp(old(regs), read, ptr, blkSize, c.nblks, rsvd), c.idx, c.flags, c.arg, c.nblks, true)
      ensures Strayed(old(LeftDue()), old(LeftGood()), env.cmdDelay(|old(sent)|) + 1, false, old(dataTimeout))
    {
      XferSetup(read, ptr, blkSize, c.nblks);
      var rsp;
      status, rsp := CmdSend(c);
    }

    // The common head of MMCWriteCmdSend and MMCReadCmdSend: set up the transfer and issue the command.
    method StartBlocks(read: bool, ptr: word, address: word, nblks: word) returns (status: nat)
      requires WellFormed(store) && Idle() && ptr + BLOCK * nblks <= |store.ram|
      modifies this
      ensures store == old(store) && info == old(info) && dmaEnable
      ensures sent == old(sent) + [Sent(Opcode(read, nblks), address, C.Short)]
      ensures status == if env.cmdOk(|old(sent)|) then 1 else 0
      ensures status == 0 ==> Idle()
      ensures status == 1 ==>
        && InTransfer() && xferDue == env.xferDelay(|old(sent)|) && regs.cmd.dataPresent
        && Moved(env.card, store, regs) == Transferred(env.card, store, read, address, ptr, nblks)
        && xferGood == (env.xferOk(|old(sent)|) && Reachable(env.card, store, address, nblks))
        && dmaDue == if xferGood then env.dmaDelay(|old(sent)|) else -1
    {
      ghost var r, rsvd := regs, U16(env.rsvd(|sent|));
      var cmd := Cmd(Opcode(read, nblks), OpFlags(read, nblks), address, nblks, NO_RSP);
      status := StartData(read, ptr, BLOCK, cmd);
      BlocksStarted(r, read, ptr, address, nblks, rsvd);
    }

    lemma BlocksStarted(r: Regs, read: bool, ptr: word, address: word, n: word, rsvd: nat)
      requires WellFormed(store) && sent != [] && NoFlags() && cmdDue == -1 && strayDue == -1 && !callbackOccured
      requires rsvd < TWO16 && TransferStarted()
      requires regs == Issued(SetUp(r, read, ptr, BLOCK, n, rsvd), Opcode(read, n), OpFlags(read, n), address, n, true)
      requires ptr + BLOCK * n <= |store.ram|
      ensures !env.cmdOk(Serial()) ==> Idle()
      ensures env.cmdOk(Serial()) ==>
        && InTransfer() && xferDue == env.xferDelay(Serial()) && regs.cmd.dataPresent
        && Moved(env.card, store, regs) == Transferred(env.card, store, read, address, ptr, n)
        && xferGood == (env.xferOk(Serial()) && Reachable(env.card, store, address, n))
        && dmaDue == if xferGood then env.dmaDelay(Serial()) else -1
    {
      BlockSequence(env.card, store, r, read, address, ptr, n, rsvd);
      DataStarted(Transferred(env.card, store, read, address, ptr, n));
    }

    // What the two block operations share: start the transfer, wait for it, stop the card. DMA stays
    // enabled exactly if the data command itself fails. None if CMD12 is not answered: the driver hangs.
    method MoveBlocks(read: bool, ptr: word, address: word, nblks: word) returns (status: Option<nat>)
      requires WellFormed(store) && Idle() && Timely(env) && ptr + BLOCK * nblks <= |store.ram|
      modifies this
      ensures WellFormed(store) && Idle() && info == old(info)
      ensures status == old(Outcome(|sent|, address, nblks))
      ensures sent == old(sent) + old(Trace(read, address, nblks))
      ensures dmaEnable <==> !old(env.cmdOk(|sent|))
      ensures store ==
        if old(MovesAt(|sent|, address, nblks))
        then Transferred(env.card, old(store), read, address, ptr, nblks).value else old(store)
    {
      var started := StartBlocks(read, ptr, address, nblks);
      if started == 0 { return Some(0); }
      status := FinishTransfer(nblks);
    }

    // MMCWriteCmdSend
    method WriteCmdSend(ptr: word, block: word, nblks: word) returns (status: Option<nat>)
      requires WellFormed(store) && Idle() && Timely(env) && ptr + BLOCK * nblks <= |store.ram|
      modifies this
      ensures WellFormed(store) && Idle() && info == old(info)
      ensures status == old(Outcome(|sent|, Address(block), nblks))
      ensures sent == old(sent) + old(Trace(false, Address(block), nblks))
      ensures dmaEnable <==> !old(env.cmdOk(|sent|))
      ensures store ==
        if old(MovesAt(|sent|, Address(block), nblks))
        then WriteEffect(old(store), ptr, FirstBlock(env.card, old(Address(block))).value, nblks)
        else Cleaned(old(store), ptr, BLOCK * nblks)
    {
      var address := Address(block);
      CleanBuff(ptr, BLOCK * nblks);
      WriteIsEffect(env.card, old(store), address, ptr, nblks);
      status := MoveBlocks(false, ptr, address, nblks);
    }

    // MMCReadCmdSend. The CPU sees the data only after success.
    method ReadCmdSend(ptr: word, block: word, nblks: word) returns (status: Option<nat>)
      requires WellFormed(store) && Idle() && Timely(env) && ptr + BLOCK * nblks <= |store.ram|
      modifies this
      ensures WellFormed(store) && Idle() && info == old(info)
      ensures status == old(Outcome(|sent|, Address(block), nblks))
      ensures sent == old(sent) + old(Trace(true, Address(block), nblks))
      ensures dmaEnable <==> !old(env.cmdOk(|sent|))
      ensures status == Some(1) ==>
        store == ReadEffect(old(store), ptr, FirstBlock(env.card, old(Address(block))).value, nblks)
      ensures status != Some(1) ==> store.view == old(store).view
      ensures store.blocks == old(store).blocks && |store.ram| == |old(store).ram|
    {
      var address := Address(block);
      status := MoveBlocks(true, ptr, address, nblks);
      if status != Some(1) { return; }
      FlushBuff(ptr, BLOCK * nblks);
    }
  }
}
