// The flag protocol between the MMC main thread and the interrupt routines, one volatile access per
// step, interleaved in any order with the controller and the routines.
module MmcProtocol {
  import opened Words

  // ---- A phase of the controller and its report on the way to the main thread ----

  // A pair of bits: completion and timeout
  datatype Pair = Pair(comp: bool, timeout: bool)

  const NO: Pair := Pair(false, false)

  // Once over, a phase has reported completion, a timeout, or both.
  datatype Phase = Off | Running | Over(report: Pair)

  const GOOD: Phase := Over(Pair(true, false))

  // Where the report is: not made yet, raised status bits, in the hands of the interrupt routine,
  // flags of the main thread, or consumed by the wait. (A history variable.)
  datatype Place = Nowhere | InStat | InIsr | InFlags | Consumed

  // The command side (CC and CTO, cmdCompFlag and cmdTimeout) or the transfer side (TC and DTO,
  // xferCompFlag and dataTimeout), as far as the bits come from the phase being waited for
  datatype Side = Side(phase: Phase, at: Place, stat: Pair, isr: Pair, flag: Pair)

  const UNUSED: Side := Side(Off, Nowhere, NO, NO, NO)

  // Transfer reports nobody waits for: the busy phase of a card selection, or a transfer phase that its
  // wait has not seen the end of. They share the bits of the transfer side.
  datatype Stray = Stray(running: bool, stat: Pair, isr: Pair, flag: Pair)

  const NONE: Stray := Stray(false, NO, NO, NO)

  function Or(a: Pair, b: Pair): Pair { Pair(a.comp || b.comp, a.timeout || b.timeout) }

  function Raise(d: Side, report: Pair): Side {
    d.(phase := Over(report), at := InStat, stat := Or(d.stat, report))
  }

  // mmc0_isr reads the status and writes it back, which clears the bits it has read.
  function Capture(d: Side): Side {
    d.(isr := d.stat, stat := NO, at := if d.at == InStat then InIsr else d.at)
  }

  // mmc0_isr sets the flags.
  function Deliver(d: Side): Side {
    d.(flag := Or(d.flag, d.isr), isr := NO, at := if d.at == InIsr then InFlags else d.at)
  }

  function CaptureStray(x: Stray): Stray { x.(isr := x.stat, stat := NO) }

  function DeliverStray(x: Stray): Stray { x.(flag := Or(x.flag, x.isr), isr := NO) }

  // What of a transfer side is left when the next command is written goes astray.
  function Leftover(x: Stray, d: Side): Stray {
    Stray(x.running || d.phase == Running, Or(x.stat, d.stat), Or(x.isr, d.isr), Or(x.flag, d.flag))
  }

  // The report of a phase that is over is in one place, and that place holds all of it.
  predicate Placed(d: Side) {
    && (d.phase.Over? <==> d.at != Nowhere)
    && (d.phase.Over? ==> d.phase.report != NO)
    && d.stat == (if d.at == InStat then d.phase.report else NO)
    && d.isr == (if d.at == InIsr then d.phase.report else NO)
  }

  predicate Unread(d: Side) {
    d.at != Consumed && d.flag == if d.at == InFlags && d.phase.Over? then d.phase.report else NO
  }

  predicate Read(d: Side) { d.at == Consumed && d.flag == NO }

  predicate Settled(d: Side) { d.phase != Running && (d.at == Nowhere || d.at == Consumed) && d.flag == NO }

  // ---- The code of the two waits, which differ only in their flags ----

  datatype Wait = PollComp | PollTimeout | TestComp | ClearComp | TestTimeout | ClearTimeout | Returned

  // stray are the flags that do not come from the phase being waited for.
  datatype WaitState = WaitState(at: Wait, side: Side, stray: Pair, status: bool)

  function Taken(d: Side): Side { d.(at := if d.at == InFlags then Consumed else d.at) }

  function NextWait(w: WaitState): WaitState {
    var d, f := w.side, Or(w.side.flag, w.stray);
    match w.at
    case PollComp => w.(at := if f.comp then TestComp else PollTimeout)
    case PollTimeout => w.(at := if f.timeout then TestComp else PollComp)
    case TestComp => if f.comp then w.(at := ClearComp, status := true) else w.(at := TestTimeout)
    case ClearComp =>
      w.(at := TestTimeout, side := d.(flag := d.flag.(comp := false)), stray := w.stray.(comp := false))
    case TestTimeout =>
      if f.timeout then w.(at := ClearTimeout, status := false) else w.(at := Returned, side := Taken(d))
    case ClearTimeout =>
      w.(at := Returned, side := Taken(d.(flag := d.flag.(timeout := false))), stray := w.stray.(timeout := false))
    case Returned => w
  }

  predicate WaitInv(w: WaitState) {
    var d := w.side;
    Placed(d) && w.stray == NO &&
    match w.at
    case PollComp | PollTimeout => Unread(d) && !w.status
    case TestComp => d.at == InFlags && d.flag == d.phase.report && !w.status
    case ClearComp => d.at == InFlags && d.flag == d.phase.report && d.flag.comp && w.status
    case TestTimeout =>
      d.at == InFlags && d.flag == Pair(false, d.phase.report.timeout) && w.status == d.phase.report.comp
    case ClearTimeout => d.at == InFlags && d.flag == Pair(false, true) && d.phase.report.timeout && !w.status
    case Returned => Read(d) && w.status == (d.phase == GOOD)
  }

  // A wait consumes the report of its own phase, whole, and returns success for a clean completion only.
  lemma WaitKeepsInv(w: WaitState)
    requires WaitInv(w)
    ensures WaitInv(NextWait(w)) && NextWait(w).side.phase == w.side.phase
  {
  }

  // ---- The whole system ----

  // A command without data, one whose busy phase nobody waits for (CMD7), a block command, or the CMD12
  // that ends a multiple-block transfer
  datatype Kind = Plain | Select | Data | Stop

  // The main thread: in MMCXferSetup, about to write the command register, in one of the two waits,
  // polling for the callback, or returning
  datatype Pc =
    | Idle | SetupCallback | SetupXfer | SetupDma | ClearStat | Issue
    | CmdWait(wait: Wait)
    | XferWait(wait: Wait)
    | CbPoll | CbCount | CbClear | XferReturn

  // The DMA transfer the channel is programmed for: programmed, moving data, finished
  datatype Dma = Unarmed | Armed | Flying | Done

  datatype State = State(
    pc: Pc, kind: Kind, multi: bool, status: bool, timeOut: nat,
    cmd: Side, xfer: Side, stray: Stray, inIsr: bool,
    dma: Dma, strayDma: bool, callback: bool, dmaEnable: bool,
    // history: commands issued; the last transfer was started with a stray report outstanding; a data
    // command has failed; a DMA transfer has been left behind unfinished
    serial: nat, misled: bool, cmdFailed: bool, dmaLost: bool)

  const INIT := State(Idle, Plain, false, false, 0, UNUSED, UNUSED, NONE, false, Unarmed, false, false, false,
                      0, false, false, false)

  datatype Step =
    | Main(kind: Kind, multi: bool)   // the next access; when idle, which operation to start
    | RaiseCmd(report: Pair)          // the controller ends the command phase
    | RaiseXfer(report: Pair)         // the controller ends the transfer phase
    | RaiseStray(report: Pair)        // the controller ends a phase nobody waits for
    | RaiseLate(report: Pair)         // the controller adds to the report of a command phase it has ended
    | EnterIsr
    | LeaveIsr
    | FinishDma                       // the completion interrupt has run the callback
    | FinishStrayDma                  // ... for a transfer over which the channel was programmed again

  // Interrupt routines run to completion before the main thread goes on, and do not nest.
  predicate Enabled(s: State, e: Step) {
    match e
    case Main(kind, _) => !s.inIsr && kind != Stop
    case RaiseCmd(r) => s.cmd.phase == Running && r != NO
    case RaiseXfer(r) => s.xfer.phase == Running && r != NO
    case RaiseStray(r) => s.stray.running && r != NO
    case RaiseLate(r) => s.cmd.phase.Over? && r != NO
    case EnterIsr => !s.inIsr && (s.cmd.stat != NO || s.xfer.stat != NO || s.stray.stat != NO)
    case LeaveIsr => s.inIsr
    case FinishDma => s.dma == Flying && !s.inIsr
    case FinishStrayDma => s.strayDma && !s.inIsr
  }

  function Next(s: State, e: Step): State
    requires Enabled(s, e)
  {
    match e
    case Main(kind, multi) => NextMain(s, kind, multi)
    case RaiseCmd(r) => NextRaiseCmd(s, r)
    case RaiseXfer(r) => s.(xfer := Raise(s.xfer, r))
    case RaiseStray(r) => s.(stray := s.stray.(running := false, stat := Or(s.stray.stat, r)))
    case RaiseLate(r) => Later(s, r)
    case EnterIsr => s.(inIsr := true, cmd := Capture(s.cmd), xfer := Capture(s.xfer), stray := CaptureStray(s.stray))
    case LeaveIsr => s.(inIsr := false, cmd := Deliver(s.cmd), xfer := Deliver(s.xfer), stray := DeliverStray(s.stray))
    case FinishDma => s.(dma := Done, callback := true)
    case FinishStrayDma => s.(strayDma := false, callback := true)
  }

  // The controller adds to the report of a command phase it has ended.
  function Later(s: State, r: Pair): State
    requires s.cmd.phase.Over?
  {
    s.(cmd := s.cmd.(phase := Over(Or(s.cmd.phase.report, r)), stat := Or(s.cmd.stat, r)))
  }

  // A cleanly completed command starts the phase its kind asks for: data, or busy.
  function NextRaiseCmd(s: State, r: Pair): State {
    var clean := Over(r) == GOOD;
    s.(cmd := Raise(s.cmd, r),
       xfer := if clean && (s.kind == Data || s.kind == Stop) then s.xfer.(phase := Running) else s.xfer,
       stray := if clean && s.kind == Select then s.stray.(running := true) else s.stray,
       dma := if clean && s.kind == Data then Flying else s.dma)
  }

  function NextMain(s: State, kind: Kind, multi: bool): State {
    if s.pc.CmdWait? then NextCommand(s)
    else if Transferring(s.pc) then NextTransfer(s)
    else if s.pc == Issue then NextIssue(s)
    else NextPreparing(s, kind, multi)
  }

  function NextCommand(s: State): State
    requires s.pc.CmdWait?
  {
    if s.pc.wait == Returned then NextAfterCommand(s)
    else NextCmdWait(s, NextWait(WaitState(s.pc.wait, s.cmd, NO, s.status)))
  }

  function NextTransfer(s: State): State {
    if s.pc.XferWait? then
      if s.pc.wait == Returned then s.(pc := if s.kind == Data then CbPoll else XferReturn)
      else NextXferWait(s, NextWait(WaitState(s.pc.wait, s.xfer, s.stray.flag, s.status)))
    else if InCallback(s.pc) then NextPoll(s)
    else NextAfterTransfer(s)
  }

  predicate Transferring(pc: Pc) { pc.XferWait? || InCallback(pc) || pc == XferReturn }

  predicate InCallback(pc: Pc) { pc == CbPoll || pc == CbCount || pc == CbClear }

  function NextCmdWait(s: State, n: WaitState): State {
    s.(pc := CmdWait(n.at), cmd := n.side, status := n.status)
  }

  function NextXferWait(s: State, n: WaitState): State {
    s.(pc := XferWait(n.at), xfer := n.side, stray := s.stray.(flag := n.stray), status := n.status)
  }

  function PreparedPc(pc: Pc, kind: Kind): Pc {
    match pc
    case Idle => if kind == Data then SetupCallback else Issue
    case SetupCallback => SetupXfer
    case SetupXfer => SetupDma
    case SetupDma => ClearStat
    case _ => Issue
  }

  // MMCXferSetup clears the callback flag and the completion flag, then programs the DMA channel;
  // MMC0CmdSend clears the completion bit of the status register.
  function NextPreparing(s: State, kind: Kind, multi: bool): State {
    s.(pc := PreparedPc(s.pc, kind),
       kind := if s.pc == Idle then kind else s.kind,
       multi := if s.pc == Idle && kind == Data then multi else s.multi,
       callback := s.callback && s.pc != SetupCallback,
       xfer := ClearedSide(s.xfer, s.pc == SetupXfer, s.pc == ClearStat),
       stray := ClearedStray(s.stray, s.pc == SetupXfer, s.pc == ClearStat),
       dma := if s.pc == SetupDma then Armed else s.dma,
       strayDma := s.strayDma || (s.pc == SetupDma && s.dma == Flying),
       dmaEnable := s.dmaEnable || s.pc == SetupDma)
  }

  function ClearedSide(d: Side, flag: bool, stat: bool): Side {
    d.(flag := Pair(d.flag.comp && !flag, d.flag.timeout), stat := Pair(d.stat.comp && !stat, d.stat.timeout))
  }

  function ClearedStray(x: Stray, flag: bool, stat: bool): Stray {
    x.(flag := Pair(x.flag.comp && !flag, x.flag.timeout), stat := Pair(x.stat.comp && !stat, x.stat.timeout))
  }

  // The command register is written.
  function NextIssue(s: State): State {
    var x := Leftover(s.stray, s.xfer);
    s.(pc := CmdWait(PollComp), status := false, cmd := s.cmd.(phase := Running, at := Nowhere),
       xfer := UNUSED, stray := x, serial := s.serial + 1, misled := x != NONE && (s.kind == Data || s.kind == Stop))
  }

  // The loop that waits for the callback. Its post-decrement wraps.
  function NextPoll(s: State): State {
    s.(pc := if s.pc == CbPoll then (if s.callback then CbClear else CbCount)
             else if s.pc == CbClear then XferReturn else if s.timeOut != 0 then CbPoll else CbClear,
       timeOut := if s.pc == CbCount then (if s.timeOut != 0 then s.timeOut - 1 else 0xFFFF_FFFF) else s.timeOut,
       callback := s.callback && s.pc != CbClear,
       status := s.status && (s.pc == CbClear ==> s.timeOut != 0))
  }

  function NextAfterCommand(s: State): State {
    var over := s.kind == Plain || s.kind == Select || (s.kind == Data && !s.status);
    s.(pc := if over then Idle else XferWait(PollComp), status := s.status && over,
       timeOut := if over then s.timeOut else 0xFFFF, cmdFailed := s.cmdFailed || (s.kind == Data && !s.status))
  }

  function NextAfterTransfer(s: State): State {
    var stop := s.kind == Data && s.status && s.multi;
    s.(pc := if stop then Issue else Idle, kind := if stop then Stop else s.kind,
       dmaEnable := false, dmaLost := s.dmaLost || (s.kind == Data && s.dma == Flying))
  }

  // The state a run ends in, if every step of it was enabled
  ghost function Run(steps: seq<Step>): Option<State> {
    if steps == [] then Some(INIT)
    else
      var n := |steps| - 1;
      var s := Run(steps[..n]);
      if s.Some? && Enabled(s.value, steps[n]) then Some(Next(s.value, steps[n])) else None
  }

  // Every command phase raises all its status bits at once.
  ghost predicate Whole(steps: seq<Step>) {
    forall i :: 0 <= i < |steps| ==> !steps[i].RaiseLate?
  }

  // ---- The invariant of the command side ----

  predicate SettingUp(pc: Pc) { pc == SetupCallback || pc == SetupXfer || pc == SetupDma || pc == ClearStat }

  predicate Preparing(pc: Pc) { pc == Idle || SettingUp(pc) || pc == Issue }

  predicate Transfers(k: Kind) { k == Data || k == Stop }

  predicate CmdAt(pc: Pc, kind: Kind, status: bool, cmd: Side) {
    && Placed(cmd)
    && (SettingUp(pc) ==> kind == Data) && (Transferring(pc) ==> Transfers(kind))
    && (pc.CmdWait? ==> WaitInv(WaitState(pc.wait, cmd, NO, status)))
    && (Transferring(pc) ==> Read(cmd)) && (Preparing(pc) ==> Settled(cmd))
  }

  predicate CmdInv(s: State) { CmdAt(s.pc, s.kind, s.status, s.cmd) && (!s.inIsr ==> s.cmd.at != InIsr) }

  lemma CmdWaitKeepsCmd(s: State, n: WaitState)
    requires CmdInv(s) && s.pc.CmdWait? && n == NextWait(WaitState(s.pc.wait, s.cmd, NO, s.status))
    ensures CmdInv(NextCmdWait(s, n))
  {
    WaitKeepsInv(WaitState(s.pc.wait, s.cmd, NO, s.status));
  }

  lemma AfterCommandKeepsCmd(s: State)
    requires CmdInv(s) && s.pc == CmdWait(Returned)
    ensures CmdInv(NextAfterCommand(s)) && Read(s.cmd) && (s.status <==> s.cmd.phase == GOOD)
  {
    assert WaitInv(WaitState(Returned, s.cmd, NO, s.status));
    assert Settled(s.cmd);
  }

  lemma IssueKeepsCmd(s: State)
    requires CmdInv(s) && s.pc == Issue
    ensures CmdInv(NextIssue(s))
  {
  }

  lemma PreparingKeepsCmd(s: State, kind: Kind, multi: bool)
    requires CmdInv(s) && Preparing(s.pc) && s.pc != Issue && kind != Stop
    ensures CmdInv(NextPreparing(s, kind, multi))
  {
    var t := NextPreparing(s, kind, multi);
    assert Preparing(t.pc) && t.cmd == s.cmd && t.inIsr == s.inIsr && (SettingUp(t.pc) ==> t.kind == Data);
  }

  lemma SameCmd(s: State, t: State)
    requires CmdInv(s) && Transferring(s.pc) && t.cmd == s.cmd && t.inIsr == s.inIsr
    requires (Transferring(t.pc) && t.kind == s.kind) || t.pc == Idle || t.pc == Issue
    ensures CmdInv(t)
  {
  }

  lemma CommandKeepsCmd(s: State)
    requires CmdInv(s) && s.pc.CmdWait?
    ensures CmdInv(NextCommand(s))
  {
    if s.pc.wait == Returned {
      AfterCommandKeepsCmd(s);
    } else {
      CmdWaitKeepsCmd(s, NextWait(WaitState(s.pc.wait, s.cmd, NO, s.status)));
    }
  }

  lemma WaitStepKeepsCmd(s: State, n: WaitState)
    requires CmdInv(s) && s.pc.XferWait?
    ensures CmdInv(NextXferWait(s, n))
  {
    SameCmd(s, NextXferWait(s, n));
  }

  lemma PollKeepsCmd(s: State)
    requires CmdInv(s) && InCallback(s.pc)
    ensures CmdInv(NextPoll(s))
  {
    SameCmd(s, NextPoll(s));
  }

  lemma AfterTransferKeepsCmd(s: State)
    requires CmdInv(s) && s.pc == XferReturn
    ensures CmdInv(NextAfterTransfer(s))
  {
    SameCmd(s, NextAfterTransfer(s));
  }

  lemma ReturnedKeepsCmd(s: State, pc: Pc)
    requires CmdInv(s) && s.pc.XferWait? && (pc == CbPoll || pc == XferReturn)
    ensures CmdInv(s.(pc := pc))
  {
    SameCmd(s, s.(pc := pc));
  }

  lemma TransferKeepsCmd(s: State)
    requires CmdInv(s) && Transferring(s.pc)
    ensures CmdInv(NextTransfer(s))
  {
    if s.pc == XferWait(Returned) {
      ReturnedKeepsCmd(s, if s.kind == Data then CbPoll else XferReturn);
    } else if s.pc.XferWait? {
      WaitStepKeepsCmd(s, NextWait(WaitState(s.pc.wait, s.xfer, s.stray.flag, s.status)));
    } else if InCallback(s.pc) {
      PollKeepsCmd(s);
    } else {
      AfterTransferKeepsCmd(s);
    }
  }

  lemma MainKeepsCmd(s: State, kind: Kind, multi: bool)
    requires CmdInv(s) && Enabled(s, Main(kind, multi))
    ensures CmdInv(NextMain(s, kind, multi))
  {
    if s.pc.CmdWait? {
      CommandKeepsCmd(s);
    } else if Transferring(s.pc) {
      TransferKeepsCmd(s);
    } else if s.pc == Issue {
      IssueKeepsCmd(s);
    } else {
      PreparingKeepsCmd(s, kind, multi);
    }
  }

  lemma StepKeepsCmd(s: State, e: Step)
    requires CmdInv(s) && Enabled(s, e) && !e.RaiseLate?
    ensures CmdInv(Next(s, e))
  {
    match e
    case Main(kind, multi) => MainKeepsCmd(s, kind, multi);
    case _ =>
  }

  lemma {:induction false} CmdInvAlways(steps: seq<Step>)
    requires Whole(steps) && Run(steps).Some?
    ensures CmdInv(Run(steps).value)
  {
    if steps != [] {
      var n := |steps| - 1;
      CmdInvAlways(steps[..n]);
      StepKeepsCmd(Run(steps[..n]).value, steps[n]);
    }
  }

  // ---- The invariant of the transfer side ----

  // The transfer phase while its command is waited for
  predicate XferPending(s: State) {
    Unread(s.xfer) && (Transfers(s.kind) && s.cmd.phase == GOOD <==> s.xfer.phase != Off)
  }

  predicate InPoll(s: State) {
    Read(s.xfer) && s.stray == NONE && s.kind == Data && s.status == (s.xfer.phase == GOOD)
  }

  // What holds unless the last transfer was started with a stray report outstanding
  predicate XferInv(s: State) {
    && Placed(s.xfer) && (!s.inIsr ==> s.xfer.at != InIsr)
    && (s.xfer.phase == Running ==> s.cmd.phase == GOOD && Transfers(s.kind))
    && match s.pc
       case CmdWait(w) => XferPending(s) && (Transfers(s.kind) ==> s.stray == NONE)
       case XferWait(w) =>
         && WaitInv(WaitState(w, s.xfer, s.stray.flag, s.status)) && s.stray == NONE && s.timeOut == 0xFFFF
         && (s.xfer.phase != Off <==> s.cmd.phase == GOOD) && (s.kind == Data ==> s.cmd.phase == GOOD)
       case CbPoll => InPoll(s) && s.timeOut <= 0xFFFF
       case CbCount => InPoll(s) && s.timeOut <= 0xFFFF
       case CbClear => InPoll(s)
       case XferReturn =>
         && Read(s.xfer) && s.stray == NONE && (s.kind == Stop ==> s.timeOut == 0xFFFF)
         && s.status == (s.xfer.phase == GOOD && s.timeOut != 0)
       case _ => Settled(s.xfer) && (s.pc == Issue && s.kind == Stop ==> s.xfer.phase == GOOD && s.stray == NONE)
  }

  // What holds in any case: nothing is left in the hands of an interrupt routine that is not running.
  predicate NotHeld(s: State) { !s.inIsr ==> s.stray.isr == NO && s.xfer.isr == NO }

  predicate StrayInv(s: State) { NotHeld(s) && (!s.misled ==> XferInv(s)) }

  // Moving a report from the status register towards the flags disturbs no wait.
  lemma CaptureKeeps(d: Side)
    requires Placed(d) && d.at != InIsr
    ensures Placed(Capture(d)) && Capture(d).phase == d.phase
    ensures Unread(d) ==> Unread(Capture(d))
    ensures Read(d) ==> Read(Capture(d))
    ensures Settled(d) ==> Settled(Capture(d))
    ensures forall w, status :: WaitInv(WaitState(w, d, NO, status)) ==> WaitInv(WaitState(w, Capture(d), NO, status))
  {
  }

  lemma DeliverKeeps(d: Side)
    requires Placed(d)
    ensures Placed(Deliver(d)) && Deliver(d).phase == d.phase && Deliver(d).at != InIsr
    ensures Unread(d) ==> Unread(Deliver(d))
    ensures Read(d) ==> Read(Deliver(d))
    ensures Settled(d) ==> Settled(Deliver(d))
    ensures forall w, status :: WaitInv(WaitState(w, d, NO, status)) ==> WaitInv(WaitState(w, Deliver(d), NO, status))
  {
  }

  // The rest of the invariant depends on the transfer side only through what the interrupt routine preserves.
  lemma SidesMayMove(s: State, t: State)
    requires XferInv(s)
    requires t == s.(inIsr := t.inIsr, cmd := t.cmd, xfer := t.xfer, stray := t.stray)
    requires Placed(t.xfer) && (!t.inIsr ==> t.xfer.at != InIsr)
    requires t.cmd.phase == s.cmd.phase && t.xfer.phase == s.xfer.phase && (s.stray == NONE ==> t.stray == NONE)
    requires Unread(s.xfer) ==> Unread(t.xfer)
    requires (Read(s.xfer) ==> Read(t.xfer)) && (Settled(s.xfer) ==> Settled(t.xfer))
    requires forall w, status :: WaitInv(WaitState(w, s.xfer, NO, status)) ==> WaitInv(WaitState(w, t.xfer, NO, status))
    ensures XferInv(t)
  {
  }

  lemma EnterIsrKeepsXfer(s: State)
    requires XferInv(s) && Enabled(s, EnterIsr)
    ensures XferInv(Next(s, EnterIsr))
  {
    CaptureKeeps(s.xfer);
    SidesMayMove(s, Next(s, EnterIsr));
  }

  lemma LeaveIsrKeepsXfer(s: State)
    requires XferInv(s) && Enabled(s, LeaveIsr)
    ensures XferInv(Next(s, LeaveIsr))
  {
    DeliverKeeps(s.xfer);
    SidesMayMove(s, Next(s, LeaveIsr));
  }

  lemma RaiseCmdKeepsXfer(s: State, r: Pair)
    requires CmdInv(s) && XferInv(s) && Enabled(s, RaiseCmd(r))
    ensures XferInv(NextRaiseCmd(s, r))
  {
  }

  lemma RaiseXferKeepsXfer(s: State, r: Pair)
    requires XferInv(s) && Enabled(s, RaiseXfer(r))
    ensures XferInv(Next(s, RaiseXfer(r)))
  {
  }

  lemma RaiseStrayKeepsXfer(s: State, r: Pair)
    requires XferInv(s) && Enabled(s, RaiseStray(r))
    ensures XferInv(Next(s, RaiseStray(r)))
  {
  }

  lemma FinishDmaKeepsXfer(s: State, e: Step)
    requires XferInv(s) && (e == FinishDma || e == FinishStrayDma) && Enabled(s, e)
    ensures XferInv(Next(s, e))
  {
  }

  lemma CmdWaitKeepsXfer(s: State, n: WaitState)
    requires XferInv(s) && s.pc.CmdWait? && n == NextWait(WaitState(s.pc.wait, s.cmd, NO, s.status))
    requires n.side.phase == s.cmd.phase
    ensures XferInv(NextCmdWait(s, n))
  {
  }

  lemma XferWaitKeepsXfer(s: State, n: WaitState)
    requires XferInv(s) && s.pc.XferWait? && n == NextWait(WaitState(s.pc.wait, s.xfer, s.stray.flag, s.status))
    ensures XferInv(NextXferWait(s, n))
  {
    WaitKeepsInv(WaitState(s.pc.wait, s.xfer, s.stray.flag, s.status));
  }

  lemma AfterCommandKeepsXfer(s: State)
    requires CmdInv(s) && XferInv(s) && s.pc == CmdWait(Returned)
    ensures XferInv(NextAfterCommand(s))
  {
    assert WaitInv(WaitState(Returned, s.cmd, NO, s.status));
  }

  lemma IssueKeepsXfer(s: State)
    requires s.pc == Issue && !s.inIsr && NextIssue(s).misled == false
    ensures XferInv(NextIssue(s))
  {
  }

  lemma PreparingKeepsXfer(s: State, kind: Kind, multi: bool)
    requires XferInv(s) && Preparing(s.pc) && s.pc != Issue && kind != Stop && !s.inIsr
    requires SettingUp(s.pc) ==> s.kind == Data
    ensures XferInv(NextPreparing(s, kind, multi))
  {
    assert ClearedSide(s.xfer, s.pc == SetupXfer, s.pc == ClearStat) == s.xfer;
  }

  lemma ReturnedKeepsXfer(s: State)
    requires XferInv(s) && s.pc == XferWait(Returned) && Transfers(s.kind)
    ensures XferInv(s.(pc := if s.kind == Data then CbPoll else XferReturn))
  {
    assert WaitInv(WaitState(Returned, s.xfer, s.stray.flag, s.status));
  }

  lemma PollKeepsXfer(s: State)
    requires XferInv(s) && (s.pc == CbPoll || s.pc == CbCount || s.pc == CbClear)
    ensures XferInv(NextPoll(s))
  {
  }

  lemma AfterTransferKeepsXfer(s: State)
    requires XferInv(s) && s.pc == XferReturn
    ensures XferInv(NextAfterTransfer(s))
  {
  }

  lemma CommandKeepsXfer(s: State)
    requires CmdInv(s) && XferInv(s) && s.pc.CmdWait?
    ensures XferInv(NextCommand(s))
  {
    if s.pc.wait == Returned {
      AfterCommandKeepsXfer(s);
    } else {
      WaitKeepsInv(WaitState(s.pc.wait, s.cmd, NO, s.status));
      CmdWaitKeepsXfer(s, NextWait(WaitState(s.pc.wait, s.cmd, NO, s.status)));
    }
  }

  lemma TransferKeepsXfer(s: State)
    requires XferInv(s) && Transferring(s.pc) && Transfers(s.kind)
    ensures XferInv(NextTransfer(s))
  {
    if s.pc == XferWait(Returned) {
      ReturnedKeepsXfer(s);
    } else if s.pc.XferWait? {
      XferWaitKeepsXfer(s, NextWait(WaitState(s.pc.wait, s.xfer, s.stray.flag, s.status)));
    } else if s.pc == XferReturn {
      AfterTransferKeepsXfer(s);
    } else {
      PollKeepsXfer(s);
    }
  }

  lemma MainKeepsXfer(s: State, kind: Kind, multi: bool)
    requires CmdInv(s) && XferInv(s) && Enabled(s, Main(kind, multi)) && s.pc != Issue
    ensures XferInv(NextMain(s, kind, multi))
  {
    if s.pc.CmdWait? {
      CommandKeepsXfer(s);
    } else if Transferring(s.pc) {
      TransferKeepsXfer(s);
    } else {
      PreparingKeepsXfer(s, kind, multi);
    }
  }

  lemma StepKeepsXfer(s: State, e: Step)
    requires CmdInv(s) && XferInv(s) && Enabled(s, e) && !e.RaiseLate? && !(e.Main? && s.pc == Issue)
    ensures XferInv(Next(s, e))
  {
    match e
    case Main(kind, multi) => MainKeepsXfer(s, kind, multi);
    case RaiseCmd(r) => RaiseCmdKeepsXfer(s, r);
    case RaiseXfer(r) => RaiseXferKeepsXfer(s, r);
    case RaiseStray(r) => RaiseStrayKeepsXfer(s, r);
    case EnterIsr => EnterIsrKeepsXfer(s);
    case LeaveIsr => LeaveIsrKeepsXfer(s);
    case _ => FinishDmaKeepsXfer(s, e);
  }

  lemma WaitKeepsHeld(s: State, n: WaitState)
    requires NotHeld(s) && n.side.isr == s.xfer.isr
    ensures NotHeld(NextXferWait(s, n)) && NextXferWait(s, n).misled == s.misled
  {
  }

  lemma WaitLeavesIsr(w: WaitState)
    ensures NextWait(w).side.isr == w.side.isr
  {
  }

  lemma TransferKeepsHeld(s: State)
    requires NotHeld(s) && Transferring(s.pc)
    ensures NotHeld(NextTransfer(s)) && NextTransfer(s).misled == s.misled
  {
    if s.pc.XferWait? && s.pc.wait != Returned {
      var w := WaitState(s.pc.wait, s.xfer, s.stray.flag, s.status);
      WaitLeavesIsr(w);
      WaitKeepsHeld(s, NextWait(w));
    }
  }

  lemma CommandKeepsHeld(s: State)
    requires NotHeld(s) && s.pc.CmdWait?
    ensures NotHeld(NextCommand(s)) && NextCommand(s).misled == s.misled
  {
    if s.pc.wait == Returned {
      assert NextAfterCommand(s).stray == s.stray && NextAfterCommand(s).xfer == s.xfer;
    } else {
      CmdWaitKeepsHeld(s, NextWait(WaitState(s.pc.wait, s.cmd, NO, s.status)));
    }
  }

  lemma CmdWaitKeepsHeld(s: State, n: WaitState)
    requires NotHeld(s)
    ensures NotHeld(NextCmdWait(s, n)) && NextCmdWait(s, n).misled == s.misled
  {
  }

  lemma StepKeepsHeld(s: State, e: Step)
    requires NotHeld(s) && Enabled(s, e) && !(e.Main? && s.pc == Issue)
    ensures NotHeld(Next(s, e)) && Next(s, e).misled == s.misled
  {
    if e.Main? && s.pc.CmdWait? {
      CommandKeepsHeld(s);
    } else if e.Main? && Transferring(s.pc) {
      TransferKeepsHeld(s);
    }
  }

  lemma StepKeepsStray(s: State, e: Step)
    requires CmdInv(s) && StrayInv(s) && Enabled(s, e) && !e.RaiseLate?
    ensures StrayInv(Next(s, e))
  {
    if e.Main? && s.pc == Issue {
      if !NextIssue(s).misled { IssueKeepsXfer(s); }
    } else {
      StepKeepsHeld(s, e);
      if !s.misled { StepKeepsXfer(s, e); }
    }
  }

  lemma {:induction false} StrayInvAlways(steps: seq<Step>)
    requires Whole(steps) && Run(steps).Some?
    ensures StrayInv(Run(steps).value)
  {
    if steps != [] {
      var n := |steps| - 1;
      StrayInvAlways(steps[..n]);
      CmdInvAlways(steps[..n]);
      StepKeepsStray(Run(steps[..n]).value, steps[n]);
    }
  }

  // ---- The callback and the DMA enable ----

  // The callback flag, in runs where no DMA transfer was left behind
  predicate CallbackAt(pc: Pc, kind: Kind, cmd: Phase, dma: Dma, callback: bool, timeOut: nat) {
    && (dma == Flying ==> kind == Data && !Preparing(pc) && cmd == GOOD)
    && (kind == Data && (pc == ClearStat || pc == Issue || (pc.CmdWait? && cmd != GOOD)) ==> dma == Armed)
    && (kind == Data && (pc == SetupXfer || pc == SetupDma || pc == ClearStat || pc == Issue) ==> !callback)
    && (kind == Data && (pc.CmdWait? || pc.XferWait? || InCallback(pc)) && callback ==> dma == Done)
    && (kind == Data && (pc == CbClear || pc == XferReturn) && timeOut <= 0xFFFF ==> dma == Done)
  }

  predicate CallbackInv(s: State) {
    !s.dmaLost ==> !s.strayDma && CallbackAt(s.pc, s.kind, s.cmd.phase, s.dma, s.callback, s.timeOut)
  }

  // The DMA enable of the command register, in runs where no data command failed
  predicate EnableInv(s: State) {
    && (!s.cmdFailed && s.dmaEnable ==> s.kind == Data && s.pc != Idle && s.pc != SetupCallback)
    && (s.kind == Data && (s.pc == ClearStat || s.pc == Issue) ==> s.dmaEnable && s.dma == Armed)
  }

  predicate DmaInv(s: State) { CallbackInv(s) && EnableInv(s) }

  lemma RaiseCmdKeepsDma(s: State, r: Pair)
    requires CmdInv(s) && DmaInv(s) && Enabled(s, RaiseCmd(r))
    ensures DmaInv(NextRaiseCmd(s, r))
  {
    assert s.pc.CmdWait?;
  }

  lemma SameDma(s: State, t: State)
    requires DmaInv(s) && t.cmd.phase == s.cmd.phase
    requires t == s.(cmd := t.cmd, xfer := t.xfer, stray := t.stray, inIsr := t.inIsr, status := t.status)
    ensures DmaInv(t)
  {
  }

  lemma WaitStepKeepsDma(s: State, w: Wait, cmd: Side, xfer: Side, stray: Stray, status: bool)
    requires DmaInv(s) && cmd.phase == s.cmd.phase && (s.pc.CmdWait? || s.pc.XferWait?)
    ensures DmaInv(s.(pc := if s.pc.CmdWait? then CmdWait(w) else XferWait(w), cmd := cmd, xfer := xfer, stray := stray,
                      status := status))
  {
  }

  lemma CommandKeepsDma(s: State)
    requires CmdInv(s) && DmaInv(s) && s.pc.CmdWait?
    ensures DmaInv(NextCommand(s))
  {
    if s.pc.wait == Returned {
      AfterCommandKeepsDma(s);
    } else {
      var w := WaitState(s.pc.wait, s.cmd, NO, s.status);
      WaitKeepsInv(w);
      var n := NextWait(w);
      WaitStepKeepsDma(s, n.at, n.side, s.xfer, s.stray, n.status);
    }
  }

  lemma AfterCommandKeepsDma(s: State)
    requires CmdInv(s) && DmaInv(s) && s.pc == CmdWait(Returned)
    ensures DmaInv(NextAfterCommand(s))
  {
    AfterCommandKeepsCmd(s);
  }

  lemma TransferKeepsDma(s: State)
    requires CmdInv(s) && DmaInv(s) && Transferring(s.pc)
    ensures DmaInv(NextTransfer(s))
  {
    if s.pc == XferWait(Returned) {
      ReturnedKeepsDma(s);
    } else if s.pc.XferWait? {
      var n := NextWait(WaitState(s.pc.wait, s.xfer, s.stray.flag, s.status));
      WaitStepKeepsDma(s, n.at, s.cmd, n.side, s.stray.(flag := n.stray), n.status);
    } else if InCallback(s.pc) {
      PollKeepsDma(s);
    } else {
      AfterTransferKeepsDma(s);
    }
  }

  lemma ReturnedKeepsDma(s: State)
    requires CmdInv(s) && DmaInv(s) && s.pc == XferWait(Returned)
    ensures DmaInv(s.(pc := if s.kind == Data then CbPoll else XferReturn))
  {
  }

  lemma PollKeepsDma(s: State)
    requires CmdInv(s) && DmaInv(s) && InCallback(s.pc)
    ensures DmaInv(NextPoll(s))
  {
  }

  lemma AfterTransferKeepsDma(s: State)
    requires CmdInv(s) && DmaInv(s) && s.pc == XferReturn
    ensures DmaInv(NextAfterTransfer(s))
  {
  }

  lemma IssueKeepsDma(s: State)
    requires DmaInv(s) && s.pc == Issue
    ensures DmaInv(NextIssue(s))
  {
  }

  lemma PreparingKeepsDma(s: State, kind: Kind, multi: bool)
    requires CmdInv(s) && DmaInv(s) && Preparing(s.pc) && s.pc != Issue && kind != Stop
    ensures DmaInv(NextPreparing(s, kind, multi))
  {
  }

  lemma StepKeepsDma(s: State, e: Step)
    requires CmdInv(s) && DmaInv(s) && Enabled(s, e) && !e.RaiseLate?
    ensures DmaInv(Next(s, e))
  {
    match e
    case Main(kind, multi) =>
      if s.pc.CmdWait? {
        CommandKeepsDma(s);
      } else if Transferring(s.pc) {
        TransferKeepsDma(s);
      } else if s.pc == Issue {
        IssueKeepsDma(s);
      } else {
        PreparingKeepsDma(s, kind, multi);
      }
    case RaiseCmd(r) => RaiseCmdKeepsDma(s, r);
    case RaiseXfer(_) => SameDma(s, Next(s, e));
    case RaiseStray(_) => SameDma(s, Next(s, e));
    case EnterIsr => SameDma(s, Next(s, e));
    case LeaveIsr => SameDma(s, Next(s, e));
    case _ =>
  }

  lemma {:induction false} DmaInvAlways(steps: seq<Step>)
    requires Whole(steps) && Run(steps).Some?
    ensures DmaInv(Run(steps).value)
  {
    if steps != [] {
      var n := |steps| - 1;
      DmaInvAlways(steps[..n]);
      CmdInvAlways(steps[..n]);
      StepKeepsDma(Run(steps[..n]).value, steps[n]);
    }
  }

  // ---- What every run guarantees ----

  predicate Inv(s: State) { CmdInv(s) && StrayInv(s) && DmaInv(s) }

  // The invariant of every run in which no command phase is reported in two parts
  lemma InvAlways(steps: seq<Step>)
    requires Whole(steps) && Run(steps).Some?
    ensures Inv(Run(steps).value)
  {
    CmdInvAlways(steps);
    StrayInvAlways(steps);
    DmaInvAlways(steps);
  }

  predicate NothingLeft(d: Side) { d.flag == NO && d.stat == NO && d.isr == NO && d.phase != Running }

  // When a command is written no command flag or status bit is left over from an earlier command. On the
  // transfer side nothing is left over either, except stray reports: those of a card selection, or those
  // of a transfer that was itself misled by a stray report.
  lemma NextPhaseStartsClean(steps: seq<Step>)
    requires Whole(steps) && Run(steps).Some? && Run(steps).value.pc == Issue
    ensures NothingLeft(Run(steps).value.cmd)
    ensures !Run(steps).value.misled ==> NothingLeft(Run(steps).value.xfer)
  {
    InvAlways(steps);
  }

  // In particular nothing at all is left over as long as no card selection is among the commands.
  ghost predicate SelectsNothing(steps: seq<Step>) {
    forall i :: 0 <= i < |steps| ==> !(steps[i].Main? && steps[i].kind == Select)
  }

  predicate Unspoilt(s: State) { s.stray == NONE && !s.misled && s.kind != Select }

  lemma StepKeepsUnspoilt(s: State, e: Step)
    requires CmdInv(s) && XferInv(s) && Unspoilt(s) && Enabled(s, e) && !e.RaiseLate? && !(e.Main? && e.kind == Select)
    ensures Unspoilt(Next(s, e))
  {
    if e.Main? {
      if s.pc.CmdWait? {
        CommandKeepsUnspoilt(s);
      } else if Transferring(s.pc) {
        TransferKeepsUnspoilt(s);
      } else if s.pc == Issue {
        assert Settled(s.xfer);
      }
    }
  }

  lemma CommandKeepsUnspoilt(s: State)
    requires Unspoilt(s) && s.pc.CmdWait?
    ensures Unspoilt(NextCommand(s))
  {
    if s.pc.wait != Returned {
      var n := NextWait(WaitState(s.pc.wait, s.cmd, NO, s.status));
      assert Unspoilt(NextCmdWait(s, n));
    }
  }

  lemma TransferKeepsUnspoilt(s: State)
    requires XferInv(s) && Unspoilt(s) && Transferring(s.pc)
    ensures Unspoilt(NextTransfer(s))
  {
    if s.pc.XferWait? && s.pc.wait != Returned {
      var w := WaitState(s.pc.wait, s.xfer, s.stray.flag, s.status);
      WaitKeepsInv(w);
      UnspoiltWait(s, NextWait(w));
    }
  }

  lemma UnspoiltWait(s: State, n: WaitState)
    requires Unspoilt(s) && n.stray == NO
    ensures Unspoilt(NextXferWait(s, n))
  {
  }

  lemma {:induction false} NoSelectionNoStray(steps: seq<Step>)
    requires Whole(steps) && SelectsNothing(steps) && Run(steps).Some?
    ensures Unspoilt(Run(steps).value)
  {
    if steps != [] {
      var n := |steps| - 1;
      NoSelectionNoStray(steps[..n]);
      InvAlways(steps[..n]);
      StepKeepsUnspoilt(Run(steps[..n]).value, steps[n]);
    }
  }

  // ---- The poll that finds nothing ----

  // n rounds of the loop that waits for the callback
  function Rounds(s: State, n: nat): State {
    if n == 0 then s else NextPoll(NextPoll(Rounds(s, n - 1)))
  }

  lemma OneRound(s: State)
    requires s.pc == CbPoll && !s.callback
    ensures NextPoll(NextPoll(s)) == if s.timeOut != 0 then s.(timeOut := s.timeOut - 1)
                                     else s.(pc := CbClear, timeOut := 0xFFFF_FFFF)
  {
  }

  lemma {:induction false} CountedDown(s: State, n: nat)
    requires s.pc == CbPoll && !s.callback && n <= s.timeOut
    ensures Rounds(s, n) == s.(timeOut := s.timeOut - n)
  {
    if n > 0 {
      CountedDown(s, n - 1);
      OneRound(Rounds(s, n - 1));
    }
  }

  // As long as no callback comes each round counts down by one; the round after the last wraps the counter and
  // ends the loop, and the transfer is reported as its phase ended.
  lemma PollExhausts(s: State)
    requires s.pc == CbPoll && !s.callback
    ensures Rounds(s, s.timeOut + 1) == s.(pc := CbClear, timeOut := 0xFFFF_FFFF)
    ensures NextPoll(Rounds(s, s.timeOut + 1)).status == s.status
  {
    CountedDown(s, s.timeOut);
    OneRound(Rounds(s, s.timeOut));
  }

  // ---- When the stop command follows ----

  // The operation, and whether it is for several blocks, is what the caller asked for when the driver was idle;
  // only a transfer that has returned turns a data command into the stop command.
  lemma AskedFor(s: State, e: Step)
    requires Enabled(s, e)
    ensures var t := Next(s, e);
      && t.multi == (if e.Main? && s.pc == Idle && e.kind == Data then e.multi else s.multi)
      && t.kind == (if e.Main? && s.pc == Idle then e.kind
                    else if e.Main? && s.pc == XferReturn && s.kind == Data && s.status && s.multi then Stop
                    else s.kind)
  {
    if e.Main? {
      MainKind(s, e.kind, e.multi);
    } else {
      ElseKind(s, e);
    }
  }

  lemma ElseKind(s: State, e: Step)
    requires Enabled(s, e) && !e.Main?
    ensures Next(s, e).kind == s.kind && Next(s, e).multi == s.multi
  {
    match e
    case RaiseCmd(r) => assert Next(s, e) == NextRaiseCmd(s, r);
    case RaiseXfer(r) => assert Next(s, e) == s.(xfer := Raise(s.xfer, r));
    case RaiseStray(r) => assert Next(s, e).kind == s.kind;
    case RaiseLate(r) => assert Next(s, e) == Later(s, r);
    case EnterIsr => assert Next(s, e).kind == s.kind;
    case LeaveIsr => assert Next(s, e).kind == s.kind;
    case FinishDma => assert Next(s, e).kind == s.kind;
    case FinishStrayDma => assert Next(s, e).kind == s.kind;
  }

  lemma MainKind(s: State, kind: Kind, multi: bool)
    ensures NextMain(s, kind, multi).multi == if s.pc == Idle && kind == Data then multi else s.multi
    ensures NextMain(s, kind, multi).kind
      == if s.pc == Idle then kind
         else if s.pc == XferReturn && s.kind == Data && s.status && s.multi then Stop else s.kind
  {
    if s.pc.CmdWait? {
      CommandKeepsKind(s, kind, multi);
    } else if s.pc.XferWait? {
      WaitKeepsKind(s, kind, multi);
    } else if InCallback(s.pc) {
      PollKeepsKind(s, kind, multi);
    } else if s.pc == XferReturn {
      ReturnKind(s, kind, multi);
    } else if s.pc == Issue {
      IssueKind(s, kind, multi);
    } else {
      PreparingKind(s, kind, multi);
    }
  }

  lemma ReturnKind(s: State, kind: Kind, multi: bool)
    requires s.pc == XferReturn
    ensures var t := NextMain(s, kind, multi);
      t.multi == s.multi && t.kind == if s.kind == Data && s.status && s.multi then Stop else s.kind
  {
    assert NextMain(s, kind, multi) == NextAfterTransfer(s);
  }

  lemma IssueKind(s: State, kind: Kind, multi: bool)
    requires s.pc == Issue
    ensures NextMain(s, kind, multi).kind == s.kind && NextMain(s, kind, multi).multi == s.multi
  {
    assert NextMain(s, kind, multi) == NextIssue(s);
  }

  lemma PreparingKind(s: State, kind: Kind, multi: bool)
    requires Preparing(s.pc) && s.pc != Issue
    ensures var t := NextMain(s, kind, multi);
      && t.multi == (if s.pc == Idle && kind == Data then multi else s.multi)
      && t.kind == (if s.pc == Idle then kind else s.kind)
  {
    assert NextMain(s, kind, multi) == NextPreparing(s, kind, multi);
  }

  lemma PollKeepsKind(s: State, kind: Kind, multi: bool)
    requires InCallback(s.pc)
    ensures NextMain(s, kind, multi).kind == s.kind && NextMain(s, kind, multi).multi == s.multi
  {
    assert NextMain(s, kind, multi) == NextPoll(s);
  }

  lemma CommandKeepsKind(s: State, kind: Kind, multi: bool)
    requires s.pc.CmdWait?
    ensures NextMain(s, kind, multi).kind == s.kind && NextMain(s, kind, multi).multi == s.multi
  {
    if s.pc.wait == Returned {
      assert NextMain(s, kind, multi) == NextAfterCommand(s);
    } else {
      SameKind(s, NextWait(WaitState(s.pc.wait, s.cmd, NO, s.status)));
    }
  }

  lemma WaitKeepsKind(s: State, kind: Kind, multi: bool)
    requires s.pc.XferWait?
    ensures NextMain(s, kind, multi).kind == s.kind && NextMain(s, kind, multi).multi == s.multi
  {
    if s.pc.wait != Returned {
      SameKind(s, NextWait(WaitState(s.pc.wait, s.xfer, s.stray.flag, s.status)));
    }
  }

  lemma SameKind(s: State, n: WaitState)
    ensures NextCmdWait(s, n).kind == s.kind && NextCmdWait(s, n).multi == s.multi
    ensures NextXferWait(s, n).kind == s.kind && NextXferWait(s, n).multi == s.multi
  {
  }

  // The access after a data transfer has returned starts the stop command exactly if the transfer was for several
  // blocks and has been reported as a success; otherwise the operation is over.
  lemma StopFollows(s: State, kind: Kind, multi: bool)
    requires s.pc == XferReturn && s.kind == Data && Enabled(s, Main(kind, multi))
    ensures var t := Next(s, Main(kind, multi));
      if s.status && s.multi then t.pc == Issue && t.kind == Stop else t.pc == Idle && t.kind == Data
  {
  }

  lemma {:induction false} StopOnlyAfterBlocks(steps: seq<Step>)
    requires Run(steps).Some? && Run(steps).value.kind == Stop
    ensures Run(steps).value.multi
  {
    if steps != [] {
      var n := |steps| - 1;
      AskedFor(Run(steps[..n]).value, steps[n]);
      if Run(steps[..n]).value.kind == Stop { StopOnlyAfterBlocks(steps[..n]); }
    }
  }

  // A command wait returns 1 exactly when its own command completed and did not time out.
  lemma CommandWaitIsTruthful(steps: seq<Step>)
    requires Whole(steps) && Run(steps).Some? && Run(steps).value.pc == CmdWait(Returned)
    ensures var s := Run(steps).value;
      Read(s.cmd) && s.cmd.phase.Over? && (s.status <==> s.cmd.phase == GOOD)
  {
    CmdInvAlways(steps);
    AfterCommandKeepsCmd(Run(steps).value);
  }

  // A transfer wait that was not misled returns 1 exactly when its own transfer phase completed without
  // a timeout, save that a callback found on the very last poll turns success into failure.
  lemma TransferWaitIsTruthful(steps: seq<Step>)
    requires Whole(steps) && Run(steps).Some? && Run(steps).value.pc == XferReturn && !Run(steps).value.misled
    ensures var s := Run(steps).value;
      Read(s.xfer) && s.xfer.phase.Over? && (s.status <==> s.xfer.phase == GOOD && s.timeOut != 0)
  {
    StrayInvAlways(steps);
  }

  // As long as no DMA transfer was left behind, a data phase whose poll was not exhausted ends with
  // its own DMA transfer finished.
  lemma CallbackIsOwn(steps: seq<Step>)
    requires Whole(steps) && Run(steps).Some?
    ensures var s := Run(steps).value;
      s.pc == XferReturn && s.kind == Data && !s.dmaLost && s.timeOut <= 0xFFFF ==> s.dma == Done
  {
    DmaInvAlways(steps);
  }

  // As long as no data command has failed, commands are sent with DMA enabled exactly when they
  // carry data.
  lemma DmaEnableMatchesKind(steps: seq<Step>)
    requires Whole(steps) && Run(steps).Some?
    ensures var s := Run(steps).value;
      s.pc == Issue && !s.cmdFailed ==> (s.dmaEnable <==> s.kind == Data)
  {
    DmaInvAlways(steps);
  }

  // ---- Continuing a run ----

  lemma Go(steps: seq<Step>, s: State, e: Step) returns (more: seq<Step>)
    requires Run(steps) == Some(s) && Enabled(s, e)
    ensures more == steps + [e] && Run(more) == Some(Next(s, e))
    ensures Whole(steps) && !e.RaiseLate? ==> Whole(more)
  {
    more := steps + [e];
    assert more[..|steps|] == steps;
  }

  // The next access of the main thread
  lemma GoMain(steps: seq<Step>, s: State) returns (more: seq<Step>)
    requires Run(steps) == Some(s) && !s.inIsr && s.pc != Idle
    ensures Run(more) == Some(NextMain(s, Plain, false)) && steps <= more
    ensures Whole(steps) ==> Whole(more)
  {
    more := Go(steps, s, Main(Plain, false));
  }

  function Flags(w: WaitState): Pair { Or(w.side.flag, w.stray) }

  // Accesses a wait still has to make when a flag is set; finding only the other one costs one more.
  function Left(w: WaitState): nat {
    match w.at
    case PollComp => 6
    case PollTimeout => if Flags(w).timeout then 5 else 7
    case TestComp => 4
    case ClearComp => 3
    case TestTimeout => 2
    case ClearTimeout => 1
    case Returned => 0
  }

  // A wait that still polls finds a flag set.
  predicate UnderWay(w: WaitState) { w.at == PollComp || w.at == PollTimeout ==> Flags(w) != NO }

  function CmdOf(s: State): WaitState
    requires s.pc.CmdWait?
  {
    WaitState(s.pc.wait, s.cmd, NO, s.status)
  }

  function XferOf(s: State): WaitState
    requires s.pc.XferWait?
  {
    WaitState(s.pc.wait, s.xfer, s.stray.flag, s.status)
  }

  // A wait carried on to its end
  function Finished(w: WaitState): WaitState
    requires UnderWay(w)
    decreases Left(w)
  {
    if w.at == Returned then w else Finished(NextWait(w))
  }

  lemma {:induction false} FinishedWait(w: WaitState)
    requires UnderWay(w)
    ensures Finished(w).at == Returned && Finished(w).side.phase == w.side.phase
    ensures w.at == PollComp ==> var f := Or(w.side.flag, w.stray); Finished(w).status == (f.comp && !f.timeout)
    decreases Left(w)
  {
    if w.at == PollComp {
      FromTestComp(w);
    } else if w.at != Returned {
      FinishedWait(NextWait(w));
    }
  }

  lemma FromTestComp(w: WaitState)
    requires UnderWay(w) && w.at == PollComp
    ensures var f := Or(w.side.flag, w.stray);
      && Finished(w).at == Returned && Finished(w).side.phase == w.side.phase
      && Finished(w).status == (f.comp && !f.timeout)
  {
    var f := Or(w.side.flag, w.stray);
    var n := NextWait(w);
    var t := if f.comp then n else NextWait(n);
    assert t == w.(at := TestComp) && Finished(w) == Finished(t);
    var a := NextWait(t);
    var b := if f.comp then NextWait(a) else a;
    assert b.at == TestTimeout && b.status == (f.comp || w.status) && b.side.phase == w.side.phase;
    assert Or(b.side.flag, b.stray).timeout == f.timeout && Finished(t) == Finished(b);
    var c := NextWait(b);
    var d := if f.timeout then NextWait(c) else c;
    assert Finished(b) == Finished(d) == d;
  }

  lemma {:induction false} FinishCmdWait(steps: seq<Step>, s: State) returns (more: seq<Step>)
    requires Run(steps) == Some(s) && !s.inIsr && s.pc.CmdWait?
    requires UnderWay(WaitState(s.pc.wait, s.cmd, NO, s.status))
    ensures (Whole(steps) ==> Whole(more)) && steps <= more
    ensures Run(more) == Some(NextCmdWait(s, Finished(WaitState(s.pc.wait, s.cmd, NO, s.status))))
    decreases Left(CmdOf(s))
  {
    more := steps;
    var w := WaitState(s.pc.wait, s.cmd, NO, s.status);
    if s.pc.wait != Returned {
      more := GoMain(steps, s);
      var n := NextWait(w);
      StillNoStray(w);
      more := FinishCmdWait(more, NextCmdWait(s, n));
    }
  }

  lemma StillNoStray(w: WaitState)
    ensures w.stray == NO ==> NextWait(w).stray == NO
    ensures UnderWay(w) ==> UnderWay(NextWait(w))
    ensures w.at != Returned && UnderWay(w) ==> Left(NextWait(w)) < Left(w)
  {
  }

  lemma {:induction false} FinishXferWait(steps: seq<Step>, s: State) returns (more: seq<Step>)
    requires Whole(steps) && Run(steps) == Some(s) && !s.inIsr && s.pc.XferWait?
    requires UnderWay(WaitState(s.pc.wait, s.xfer, s.stray.flag, s.status))
    ensures Whole(more) && steps <= more
    ensures Run(more) == Some(NextXferWait(s, Finished(WaitState(s.pc.wait, s.xfer, s.stray.flag, s.status))))
    decreases Left(XferOf(s))
  {
    more := steps;
    var w := WaitState(s.pc.wait, s.xfer, s.stray.flag, s.status);
    if s.pc.wait != Returned {
      more := GoMain(steps, s);
      StillNoStray(w);
      var n := NextWait(w);
      SecondStep(s, n, Finished(n));
      more := FinishXferWait(more, NextXferWait(s, n));
    }
  }

  lemma SecondStep(s: State, n: WaitState, m: WaitState)
    ensures NextXferWait(NextXferWait(s, n), m) == NextXferWait(s, m)
    ensures var t := NextXferWait(s, n); WaitState(t.pc.wait, t.xfer, t.stray.flag, t.status) == n && t.inIsr == s.inIsr
  {
  }

  // ---- The command that is answered ----

  // A command about to be polled for, with nothing in the hands of an interrupt routine
  predicate JustIssued(s: State) {
    && s.pc == CmdWait(PollComp) && !s.status && !s.inIsr
    && s.cmd.phase == Running && s.cmd.stat == NO && s.cmd.flag == NO && s.stray.isr == NO && s.xfer == UNUSED
  }

  // The controller answers it cleanly, and ends the stray phase meanwhile if asked to.
  function Answered(s: State, stray: bool): State
    requires JustIssued(s) && (stray ==> s.stray.running)
  {
    var a := NextRaiseCmd(s, Pair(true, false));
    var b := if stray then a.(stray := a.stray.(running := false, stat := Or(a.stray.stat, Pair(true, false)))) else a;
    b.(cmd := Deliver(Capture(b.cmd)), xfer := Deliver(Capture(b.xfer)), stray := DeliverStray(CaptureStray(b.stray)))
  }

  lemma GoAnswered(steps: seq<Step>, s: State, stray: bool) returns (more: seq<Step>)
    requires Whole(steps) && Run(steps) == Some(s) && JustIssued(s) && (stray ==> s.stray.running)
    ensures Whole(more) && steps <= more && Run(more) == Some(Answered(s, stray))
  {
    var a := NextRaiseCmd(s, Pair(true, false));
    more := Go(steps, s, RaiseCmd(Pair(true, false)));
    var b := a;
    if stray {
      b := Next(a, RaiseStray(Pair(true, false)));
      more := Go(more, a, RaiseStray(Pair(true, false)));
    }
    more := Go(more, b, EnterIsr);
    more := Go(more, Next(b, EnterIsr), LeaveIsr);
  }

  // The state once the wait for the answered command has returned 1
  function Served(s: State, stray: bool): State
    requires JustIssued(s) && (stray ==> s.stray.running)
  {
    var a := Answered(s, stray);
    NextCmdWait(a, Finished(WaitState(PollComp, a.cmd, NO, false)))
  }

  lemma AnsweredFlags(s: State, stray: bool)
    requires JustIssued(s) && (stray ==> s.stray.running)
    ensures var a := Answered(s, stray);
      && a.cmd.flag == Pair(true, false) && a.cmd.phase == GOOD && a.xfer.flag == NO
      && a.pc == s.pc && !a.status && !a.inIsr
      && a.kind == s.kind && a.serial == s.serial
      && a.xfer.phase == (if Transfers(s.kind) then Running else Off)
      && (stray ==> a.stray.flag == Or(Or(s.stray.flag, s.stray.stat), Pair(true, false)))
      && (!stray ==> a.stray.flag == Or(s.stray.flag, s.stray.stat))
  {
  }

  lemma GoServed(steps: seq<Step>, s: State, stray: bool) returns (more: seq<Step>)
    requires Whole(steps) && Run(steps) == Some(s) && JustIssued(s) && (stray ==> s.stray.running)
    ensures Whole(more) && steps <= more && Run(more) == Some(Served(s, stray))
    ensures Served(s, stray).pc == CmdWait(Returned) && Served(s, stray).status
  {
    more := GoAnswered(steps, s, stray);
    AnsweredFlags(s, stray);
    var a := Answered(s, stray);
    var w := WaitState(PollComp, a.cmd, NO, false);
    assert a.cmd.flag != NO;
    FinishedWait(w);
    more := FinishCmdWait(more, a);
  }

  // ---- When a data wait is its own ----

  // No stray report is outstanding.
  predicate Clear(s: State) { Leftover(s.stray, s.xfer) == NONE }

  // Whether the transfer wait of the command about to be written, if it returns, reports its own phase
  ghost predicate OwnAfter(s: State, t: State) {
    t.serial == s.serial + 1 && t.pc == XferWait(Returned) ==>
      t.xfer.phase.Over? && (t.status <==> t.xfer.phase == GOOD)
  }

  ghost predicate WaitIsOwn(steps: seq<Step>)
    requires Run(steps).Some?
  {
    forall more :: Whole(steps + more) && Run(steps + more).Some? ==>
      OwnAfter(Run(steps).value, Run(steps + more).value)
  }

  lemma SerialStep(s: State, e: Step)
    requires Enabled(s, e)
    ensures Next(s, e).serial == s.serial + (if e.Main? && s.pc == Issue then 1 else 0)
  {
    if e.Main? && s.pc.CmdWait? {
      CommandKeepsSerial(s);
    } else if e.Main? && Transferring(s.pc) {
      TransferKeepsSerial(s);
    }
  }

  lemma CommandKeepsSerial(s: State)
    requires s.pc.CmdWait?
    ensures NextCommand(s).serial == s.serial && NextCommand(s).misled == s.misled
  {
    if s.pc.wait != Returned {
      CmdWaitSerial(s, NextWait(WaitState(s.pc.wait, s.cmd, NO, s.status)));
    }
  }

  lemma CmdWaitSerial(s: State, n: WaitState)
    ensures NextCmdWait(s, n).serial == s.serial && NextCmdWait(s, n).misled == s.misled
    ensures NextXferWait(s, n).serial == s.serial && NextXferWait(s, n).misled == s.misled
  {
  }

  lemma TransferKeepsSerial(s: State)
    requires Transferring(s.pc)
    ensures NextTransfer(s).serial == s.serial && NextTransfer(s).misled == s.misled
  {
    if s.pc.XferWait? && s.pc.wait != Returned {
      CmdWaitSerial(s, NextWait(WaitState(s.pc.wait, s.xfer, s.stray.flag, s.status)));
    }
  }

  // Until the command is written nothing changes whether the way is clear; afterwards misled remembers it.
  ghost predicate Remembers(s: State, t: State) {
    || (t.serial == s.serial && t.pc == Issue && t.kind == s.kind && Clear(t) == Clear(s))
    || (t.serial == s.serial + 1 && (t.misled <==> !Clear(s) && Transfers(s.kind)))
    || t.serial > s.serial + 1
  }

  lemma CaptureClear(x: Stray, d: Side)
    requires x.isr == NO && d.isr == NO
    ensures Leftover(CaptureStray(x), Capture(d)) == NONE <==> Leftover(x, d) == NONE
  {
  }

  lemma DeliverClear(x: Stray, d: Side)
    ensures Leftover(DeliverStray(x), Deliver(d)) == NONE <==> Leftover(x, d) == NONE
  {
  }

  lemma RaiseClear(x: Stray, d: Side, r: Pair)
    requires r != NO
    ensures d.phase == Running ==> Leftover(x, Raise(d, r)) != NONE
    ensures Leftover(x.(running := false, stat := Or(x.stat, r)), d) != NONE
  {
  }

  lemma NotRunning(s: State)
    requires CmdInv(s) && s.pc == Issue
    ensures s.cmd.phase != Running
  {
    assert Settled(s.cmd);
  }

  lemma ClearAtIssue(s: State, e: Step)
    requires CmdInv(s) && NotHeld(s) && s.pc == Issue && Enabled(s, e) && !e.Main? && !e.RaiseLate?
    ensures Clear(Next(s, e)) == Clear(s) && Next(s, e).pc == Issue && Next(s, e).kind == s.kind
  {
    NotRunning(s);
    ClearStays(s, e);
  }

  lemma ClearStays(s: State, e: Step)
    requires NotHeld(s) && Enabled(s, e) && !e.Main? && !e.RaiseLate? && !e.RaiseCmd?
    ensures Clear(Next(s, e)) == Clear(s) && Next(s, e).pc == s.pc && Next(s, e).kind == s.kind
  {
    match e
    case RaiseXfer(r) => RaiseClear(s.stray, s.xfer, r);
    case RaiseStray(r) => RaiseClear(s.stray, s.xfer, r);
    case EnterIsr => CaptureClear(s.stray, s.xfer);
    case LeaveIsr => DeliverClear(s.stray, s.xfer);
    case _ =>
  }

  lemma {:induction false} RunRemembers(steps: seq<Step>, more: seq<Step>)
    requires Whole(steps + more) && Run(steps).Some? && Run(steps + more).Some? && Run(steps).value.pc == Issue
    ensures Remembers(Run(steps).value, Run(steps + more).value)
    decreases |more|
  {
    var s := Run(steps).value;
    if more == [] {
      assert steps + more == steps;
    } else {
      var n := |more| - 1;
      assert (steps + more)[..|steps + more| - 1] == steps + more[..n];
      RunRemembers(steps, more[..n]);
      var t, e := Run(steps + more[..n]).value, more[n];
      assert (steps + more)[|steps + more| - 1] == e;
      InvAlways(steps + more[..n]);
      RemembersStep(s, t, e);
    }
  }

  lemma RemembersIssue(s: State, t: State)
    requires Remembers(s, t) && t.pc == Issue
    ensures Remembers(s, NextIssue(t))
  {
  }

  lemma RemembersStep(s: State, t: State, e: Step)
    requires Remembers(s, t) && Inv(t) && Enabled(t, e) && !e.RaiseLate?
    ensures Remembers(s, Next(t, e))
  {
    if e.Main? && t.pc == Issue {
      RemembersIssue(s, t);
    } else {
      SerialStep(t, e);
      StepKeepsHeld(t, e);
      if t.pc == Issue { ClearAtIssue(t, e); }
      SameMemory(s, t, Next(t, e));
    }
  }

  lemma SameMemory(s: State, t: State, u: State)
    requires Remembers(s, t) && u.serial == t.serial && u.misled == t.misled
    requires t.pc == Issue ==> Clear(u) == Clear(t) && u.pc == Issue && u.kind == t.kind
    ensures Remembers(s, u)
  {
  }

  lemma ClearIsOwn(steps: seq<Step>)
    requires Whole(steps) && Run(steps).Some? && Run(steps).value.pc == Issue && Clear(Run(steps).value)
    ensures WaitIsOwn(steps)
  {
    forall more | Whole(steps + more) && Run(steps + more).Some?
      ensures OwnAfter(Run(steps).value, Run(steps + more).value)
    {
      RunRemembers(steps, more);
      StrayInvAlways(steps + more);
      var t := Run(steps + more).value;
      if t.serial == Run(steps).value.serial + 1 && t.pc == XferWait(Returned) {
        assert WaitInv(WaitState(Returned, t.xfer, t.stray.flag, t.status));
      }
    }
  }

  lemma ServedData(a: State)
    requires JustIssued(a) && a.kind == Data
    ensures var b := Served(a, a.stray.running);
      && !b.inIsr && b.kind == Data && b.serial == a.serial && b.pc == CmdWait(Returned) && b.status
      && b.xfer.phase == Running && b.xfer.flag == NO
      && b.stray.flag == Or(Or(a.stray.flag, a.stray.stat), Pair(a.stray.running, false))
      && b.dma == Flying && b.callback == a.callback && b.strayDma == a.strayDma
      && b.multi == a.multi && b.misled == a.misled
  {
    AnsweredFlags(a, a.stray.running);
    var w := WaitState(PollComp, Answered(a, a.stray.running).cmd, NO, false);
    assert w.side.flag != NO;
    FinishedWait(w);
  }

  lemma IssuedFacts(s: State)
    requires Inv(s) && s.pc == Issue && !s.inIsr
    ensures var a := NextIssue(s);
      JustIssued(a) && a.stray == Leftover(s.stray, s.xfer) && a.kind == s.kind && a.serial == s.serial + 1
  {
    assert Settled(s.cmd);
  }

  lemma AfterServed(b: State)
    requires b.kind == Data && b.status
    ensures var c := NextAfterCommand(b);
      && c.pc == XferWait(PollComp) && !c.status && c.inIsr == b.inIsr && c.serial == b.serial
      && c.xfer == b.xfer && c.stray == b.stray && c.kind == Data && c.timeOut == 0xFFFF
      && c.dma == b.dma && c.callback == b.callback && c.strayDma == b.strayDma
      && c.multi == b.multi && c.misled == b.misled
  {
  }

  // A data command is answered, and stray reports are delivered.
  lemma DataServed(steps: seq<Step>, a: State) returns (more: seq<Step>, c: State)
    requires Whole(steps) && Run(steps) == Some(a) && JustIssued(a) && a.kind == Data
    ensures Whole(more) && steps <= more && Run(more) == Some(c) && !c.inIsr
    ensures c.serial == a.serial && c.pc == XferWait(PollComp) && !c.status
    ensures c.xfer.phase == Running && c.xfer.flag == NO
    ensures c.stray.flag == Or(Or(a.stray.flag, a.stray.stat), Pair(a.stray.running, false))
    ensures c.kind == Data && c.timeOut == 0xFFFF && c.dma == Flying
    ensures c.callback == a.callback && c.strayDma == a.strayDma && c.multi == a.multi && c.misled == a.misled
  {
    more := GoServed(steps, a, a.stray.running);
    ServedData(a);
    var b := Served(a, a.stray.running);
    more := GoMain(more, b);
    c := NextAfterCommand(b);
    AfterServed(b);
  }

  // The data command is written first.
  lemma ToDataWait(steps: seq<Step>, s: State) returns (more: seq<Step>, c: State)
    requires Whole(steps) && Run(steps) == Some(s) && s.pc == Issue && s.kind == Data && !s.inIsr
    ensures Whole(more) && steps <= more && Run(more) == Some(c) && !c.inIsr
    ensures c.serial == s.serial + 1 && c.pc == XferWait(PollComp) && !c.status
    ensures c.xfer.phase == Running && c.xfer.flag == NO
    ensures var x := Leftover(s.stray, s.xfer);
      c.stray.flag == Or(Or(x.flag, x.stat), Pair(x.running, false))
    ensures c.kind == Data && c.timeOut == 0xFFFF && c.dma == Flying
    ensures c.callback == s.callback && c.strayDma == s.strayDma && c.multi == s.multi && (c.misled <==> !Clear(s))
  {
    InvAlways(steps);
    IssuedFacts(s);
    more := GoMain(steps, s);
    more, c := DataServed(more, NextIssue(s));
  }

  // With a stray report outstanding, a run goes on to let the wait return while its own data phase runs.
  lemma Mislead(steps: seq<Step>, s: State) returns (more: seq<Step>)
    requires Whole(steps) && Run(steps) == Some(s) && s.pc == Issue && s.kind == Data && !Clear(s) && !s.inIsr
    ensures Whole(more) && steps <= more && Run(more).Some?
    ensures var t := Run(more).value;
      && t.serial == s.serial + 1 && t.pc == XferWait(Returned) && t.xfer.phase == Running
      && (Leftover(s.stray, s.xfer) == NONE.(running := true) ==> t.status)
  {
    InvAlways(steps);
    var c;
    more, c := ToDataWait(steps, s);
    assert c.stray.flag != NO;
    var w := WaitState(PollComp, c.xfer, c.stray.flag, false);
    FinishedWait(w);
    more := FinishXferWait(more, c);
  }

  lemma LeaveFirst(steps: seq<Step>, s: State) returns (more: seq<Step>, t: State)
    requires Whole(steps) && Run(steps) == Some(s) && s.pc == Issue
    ensures Whole(more) && steps <= more && Run(more) == Some(t) && !t.inIsr
    ensures t.pc == Issue && t.kind == s.kind && t.serial == s.serial && Clear(t) == Clear(s)
    ensures t.callback == s.callback && t.strayDma == s.strayDma
  {
    more, t := steps, s;
    if s.inIsr {
      InvAlways(steps);
      t := Next(s, LeaveIsr);
      more := Go(steps, s, LeaveIsr);
      ClearAtIssue(s, LeaveIsr);
    }
  }

  // The wait of a data command reports its own phase, whatever happens, exactly if no stray report is
  // outstanding when the command is written.
  lemma DataWaitIsOwn(steps: seq<Step>)
    requires Whole(steps) && Run(steps).Some? && Run(steps).value.pc == Issue && Run(steps).value.kind == Data
    ensures WaitIsOwn(steps) <==> Clear(Run(steps).value)
  {
    var s := Run(steps).value;
    if Clear(s) {
      ClearIsOwn(steps);
    } else {
      var a, t := LeaveFirst(steps, s);
      var b := Mislead(a, t);
      var more := b[|steps|..];
      assert steps + more == b;
      assert !OwnAfter(s, Run(steps + more).value);
    }
  }

  // ---- The clears of MMCXferSetup and MMC0CmdSend ----

  // Every stray report has come in, been delivered, and was no timeout.
  predicate Delivered(s: State) {
    var x := Leftover(s.stray, s.xfer);
    !x.running && x.stat == NO && x.isr == NO && !x.flag.timeout
  }

  // Between the two clears of a set-up whose stray reports had been delivered
  ghost predicate Cleared(s: State, t: State) {
    || t.serial > s.serial
    || (t.serial == s.serial && t.pc == SetupXfer && Delivered(t))
    || (t.serial == s.serial && (t.pc == SetupDma || t.pc == ClearStat || t.pc == Issue) && Clear(t))
  }

  lemma {:induction false} ClearsSuffice(steps: seq<Step>, more: seq<Step>)
    requires Whole(steps + more) && Run(steps).Some? && Run(steps + more).Some?
    requires Run(steps).value.pc == SetupXfer && Delivered(Run(steps).value)
    ensures Cleared(Run(steps).value, Run(steps + more).value)
    decreases |more|
  {
    if more == [] {
      assert steps + more == steps;
    } else {
      var n := |more| - 1;
      assert (steps + more)[..|steps + more| - 1] == steps + more[..n];
      assert (steps + more)[|steps + more| - 1] == more[n];
      ClearsSuffice(steps, more[..n]);
      InvAlways(steps + more[..n]);
      ClearedStep(Run(steps).value, Run(steps + more[..n]).value, more[n]);
    }
  }

  lemma ClearedMain(s: State, t: State, kind: Kind, multi: bool)
    requires Cleared(s, t) && (t.pc == SetupXfer || t.pc == SetupDma || t.pc == ClearStat)
    ensures Cleared(s, NextPreparing(t, kind, multi))
  {
  }

  lemma DeliveredStays(t: State, e: Step)
    requires NotHeld(t) && Delivered(t) && Enabled(t, e) && !e.Main? && !e.RaiseLate? && !e.RaiseCmd?
    ensures Delivered(Next(t, e)) && Next(t, e).pc == t.pc
  {
    match e
    case EnterIsr =>
    case LeaveIsr =>
    case _ =>
  }

  lemma ClearedStep(s: State, t: State, e: Step)
    requires Cleared(s, t) && Inv(t) && Enabled(t, e) && !e.RaiseLate?
    ensures Cleared(s, Next(t, e))
  {
    SerialStep(t, e);
    if t.serial == s.serial {
      if e.Main? {
        if t.pc != Issue { ClearedMain(s, t, e.kind, e.multi); }
      } else {
        PreparingNotRunning(t);
        if t.pc == SetupXfer {
          DeliveredStays(t, e);
        } else {
          ClearStays(t, e);
        }
      }
    }
  }

  lemma PreparingNotRunning(t: State)
    requires CmdInv(t) && Preparing(t.pc)
    ensures t.cmd.phase != Running
  {
    assert Settled(t.cmd);
  }

  // From the first clear straight to the command register
  lemma StraightOn(steps: seq<Step>, s: State) returns (more: seq<Step>, t: State)
    requires Whole(steps) && Run(steps) == Some(s) && !s.inIsr && s.pc == SetupDma
    ensures Whole(more) && steps <= more && Run(more) == Some(t) && t.pc == Issue && !t.inIsr
    ensures t.serial == s.serial && t.kind == s.kind && t.multi == s.multi
    ensures t.stray == ClearedStray(s.stray, false, true) && t.xfer == ClearedSide(s.xfer, false, true)
  {
    more := GoMain(steps, s);
    more := GoMain(more, NextPreparing(s, Plain, false));
    t := NextPreparing(NextPreparing(s, Plain, false), Plain, false);
  }

  // A stray report still to come, still undelivered, or a timeout, survives the clears in some run.
  lemma Survives(steps: seq<Step>, s: State) returns (more: seq<Step>)
    requires Whole(steps) && Run(steps) == Some(s) && !s.inIsr && s.pc == SetupXfer && !Delivered(s)
    ensures Whole(more) && steps <= more && Run(more).Some?
    ensures var t := Run(more).value;
      && t.pc == Issue && t.serial == s.serial && t.kind == s.kind && !t.inIsr && !Clear(t)
      && (s.xfer == UNUSED && s.stray == NONE.(running := true) ==> Leftover(t.stray, t.xfer) == s.stray)
  {
    InvAlways(steps);
    more := GoMain(steps, s);
    var a := NextPreparing(s, Plain, false);
    var t;
    var x := Leftover(s.stray, s.xfer);
    if x.stat.comp && !x.running {
      more, t := DeliverBetween(more, a);
    } else {
      more, t := StraightOn(more, a);
    }
  }

  // A completion raised before the first clear and delivered before the second
  lemma DeliverBetween(steps: seq<Step>, a: State) returns (more: seq<Step>, t: State)
    requires Whole(steps) && Run(steps) == Some(a) && !a.inIsr && a.pc == SetupDma && NotHeld(a)
    requires Leftover(a.stray, a.xfer).stat.comp
    ensures Whole(more) && steps <= more && Run(more) == Some(t) && !Clear(t)
    ensures t.pc == Issue && t.serial == a.serial && t.kind == a.kind && !t.inIsr
  {
    more := Go(steps, a, EnterIsr);
    var b := Next(a, EnterIsr);
    more := Go(more, b, LeaveIsr);
    var c := Next(b, LeaveIsr);
    assert Leftover(c.stray, c.xfer).flag.comp;
    more, t := StraightOn(more, c);
  }

  // The way is clear for the wait of a data command, whatever happens in between, exactly if at the
  // clearing of xferCompFlag every stray report has been delivered and none was a timeout.
  lemma ClearsInTime(steps: seq<Step>)
    requires Whole(steps) && Run(steps).Some? && Run(steps).value.pc == SetupXfer && !Run(steps).value.inIsr
    ensures Delivered(Run(steps).value) <==>
      forall more :: Whole(steps + more) && Run(steps + more).Some? ==>
        var t := Run(steps + more).value;
        t.pc == Issue && t.serial == Run(steps).value.serial ==> Clear(t)
  {
    var s := Run(steps).value;
    if Delivered(s) {
      forall more | Whole(steps + more) && Run(steps + more).Some?
        ensures var t := Run(steps + more).value; t.pc == Issue && t.serial == s.serial ==> Clear(t)
      {
        ClearsSuffice(steps, more);
      }
    } else {
      var b := Survives(steps, s);
      var more := b[|steps|..];
      assert steps + more == b;
    }
  }

  // ---- A card selection from the initial state ----

  lemma ServedSelection(a: State)
    requires JustIssued(a) && a.kind == Select && a.stray == NONE
    ensures var b := Served(a, false);
      && !b.inIsr && b.kind == Select && b.serial == a.serial && b.pc == CmdWait(Returned)
      && b.stray == NONE.(running := true) && b.xfer == UNUSED && !b.misled == !a.misled
  {
    AnsweredFlags(a, false);
    var w := WaitState(PollComp, Answered(a, false).cmd, NO, false);
    assert w.side.flag != NO;
    FinishedWait(w);
  }

  lemma SelectIssued() returns (steps: seq<Step>, b: State)
    ensures Whole(steps) && Run(steps) == Some(b) && JustIssued(b) && b.kind == Select && b.stray == NONE
  {
    steps := [];
    var a := NextPreparing(INIT, Select, false);
    SelectPrepared();
    steps := Go(steps, INIT, Main(Select, false));
    b := NextIssue(a);
    steps := GoMain(steps, a);
  }

  lemma SelectPrepared()
    ensures var a := NextPreparing(INIT, Select, false);
      && a == INIT.(pc := Issue, kind := Select)
      && JustIssued(NextIssue(a)) && NextIssue(a).kind == Select && NextIssue(a).stray == NONE
  {
  }

  // The card has been selected, and its busy phase goes on.
  lemma Selected() returns (steps: seq<Step>, s: State)
    ensures Whole(steps) && Run(steps) == Some(s)
    ensures s.pc == Idle && !s.inIsr && s.stray == NONE.(running := true) && s.xfer == UNUSED
  {
    var b;
    steps, b := SelectIssued();
    steps := GoServed(steps, b, false);
    ServedSelection(b);
    var c := Served(b, false);
    steps := GoMain(steps, c);
    s := NextAfterCommand(c);
  }

  // The end of that busy phase can set xferCompFlag before the next command is written ...
  lemma SelectionLeavesFlag() returns (steps: seq<Step>)
    ensures Whole(steps) && Run(steps).Some?
    ensures var s := Run(steps).value; s.pc == Issue && s.kind == Plain && s.stray.flag == Pair(true, false)
  {
    var s;
    steps, s := Selected();
    var a := Next(s, RaiseStray(Pair(true, false)));
    steps := Go(steps, s, RaiseStray(Pair(true, false)));
    var b := Next(a, EnterIsr);
    steps := Go(steps, a, EnterIsr);
    var c := Next(b, LeaveIsr);
    steps := Go(steps, b, LeaveIsr);
    steps := Go(steps, c, Main(Plain, false));
  }

  // ... and, if it comes later, makes the wait for a data phase return 1 while that phase is running.
  lemma SelectionMisleads() returns (steps: seq<Step>)
    ensures Whole(steps) && Run(steps).Some?
    ensures var s := Run(steps).value; s.pc == XferWait(Returned) && s.status && s.xfer.phase == Running
  {
    var s;
    steps, s := Selected();
    var a := NextPreparing(s, Data, false);
    steps := Go(steps, s, Main(Data, false));
    var b := NextPreparing(a, Plain, false);
    steps := GoMain(steps, a);
    assert b.pc == SetupXfer && b.stray == s.stray && b.xfer == UNUSED && b.kind == Data;
    steps := Survives(steps, b);
    steps := Mislead(steps, Run(steps).value);
  }

  // ---- CMD12 that is not answered ----

  // The stop command has failed, and nothing that could end the wait for its busy phase is under way.
  predicate Stuck(s: State) {
    && (s.pc == XferWait(PollComp) || s.pc == XferWait(PollTimeout)) && s.kind == Stop
    && s.xfer == UNUSED && s.stray == NONE && s.cmd.phase.Over?
  }

  lemma StuckStays(s: State, e: Step)
    requires Stuck(s) && Enabled(s, e)
    ensures Stuck(Next(s, e))
  {
    if e.Main? {
      var w := WaitState(s.pc.wait, s.xfer, s.stray.flag, s.status);
      assert NextWait(w) == w.(at := if w.at == PollComp then PollTimeout else PollComp);
      StuckPolls(s, NextWait(w));
    }
  }

  lemma StuckPolls(s: State, n: WaitState)
    requires Stuck(s) && (n.at == PollComp || n.at == PollTimeout) && n.side == s.xfer && n.stray == NO
    ensures Stuck(NextXferWait(s, n))
  {
  }

  lemma {:induction false} StuckForEver(steps: seq<Step>, more: seq<Step>)
    requires Run(steps).Some? && Stuck(Run(steps).value) && Run(steps + more).Some?
    ensures Stuck(Run(steps + more).value)
    decreases |more|
  {
    if more == [] {
      assert steps + more == steps;
    } else {
      var n := |more| - 1;
      assert (steps + more)[..|steps + more| - 1] == steps + more[..n];
      assert (steps + more)[|steps + more| - 1] == more[n];
      StuckForEver(steps, more[..n]);
      StuckStays(Run(steps + more[..n]).value, more[n]);
    }
  }

  // The transfer wait goes on, and its report is on its way.
  predicate OnTheWay(s: State, t: State) {
    && t.pc == s.pc && t.kind == s.kind && t.serial == s.serial && t.status == s.status && t.timeOut == s.timeOut
    && Placed(t.xfer) && Unread(t.xfer) && t.xfer.phase != Off && t.stray == NONE
    && (!t.inIsr ==> t.xfer.at != InIsr)
  }

  lemma GoLeave(steps: seq<Step>, s: State, t: State) returns (more: seq<Step>, u: State)
    requires Whole(steps) && Run(steps) == Some(t) && OnTheWay(s, t)
    ensures Whole(more) && steps <= more && Run(more) == Some(u) && OnTheWay(s, u) && !u.inIsr
    ensures u.xfer.phase == t.xfer.phase && (t.xfer.at == InIsr ==> u.xfer.at == InFlags)
  {
    more, u := steps, t;
    if t.inIsr {
      DeliverKeeps(t.xfer);
      u := Next(t, LeaveIsr);
      more := Go(more, t, LeaveIsr);
    }
  }

  lemma GoRaise(steps: seq<Step>, s: State, t: State) returns (more: seq<Step>, u: State)
    requires Whole(steps) && Run(steps) == Some(t) && OnTheWay(s, t) && !t.inIsr
    ensures Whole(more) && steps <= more && Run(more) == Some(u) && OnTheWay(s, u) && !u.inIsr && u.xfer.phase.Over?
  {
    more, u := steps, t;
    if t.xfer.phase == Running {
      u := Next(t, RaiseXfer(Pair(true, false)));
      more := Go(more, t, RaiseXfer(Pair(true, false)));
    }
  }

  lemma FlagSet(d: Side)
    requires Placed(d) && Unread(d) && d.phase.Over? && d.at == InFlags
    ensures d.flag != NO
  {
  }

  lemma Captured(s: State, t: State)
    requires OnTheWay(s, t) && !t.inIsr && t.xfer.at == InStat
    ensures Enabled(t, EnterIsr)
    ensures var v := Next(t, EnterIsr); OnTheWay(s, v) && v.inIsr && v.xfer.at == InIsr && v.xfer.phase == t.xfer.phase
  {
    CaptureKeeps(t.xfer);
  }

  lemma GoTake(steps: seq<Step>, s: State, t: State) returns (more: seq<Step>, u: State)
    requires Whole(steps) && Run(steps) == Some(t) && OnTheWay(s, t) && !t.inIsr && t.xfer.phase.Over?
    ensures Whole(more) && steps <= more && Run(more) == Some(u) && OnTheWay(s, u) && !u.inIsr && u.xfer.flag != NO
  {
    more, u := steps, t;
    if t.xfer.at == InStat {
      Captured(s, t);
      more := Go(more, t, EnterIsr);
      more, u := GoLeave(more, s, Next(t, EnterIsr));
    }
    FlagSet(u.xfer);
  }

  lemma GoDelivered(steps: seq<Step>, s: State) returns (more: seq<Step>, t: State)
    requires Whole(steps) && Run(steps) == Some(s) && OnTheWay(s, s)
    ensures Whole(more) && steps <= more && Run(more) == Some(t) && OnTheWay(s, t) && !t.inIsr && t.xfer.flag != NO
  {
    more, t := GoLeave(steps, s, s);
    more, t := GoRaise(more, s, t);
    more, t := GoTake(more, s, t);
  }

  lemma StopWaits(s: State)
    requires Inv(s) && !s.misled && s.pc == XferWait(PollComp) && s.kind == Stop && s.cmd.phase == GOOD
    ensures OnTheWay(s, s) && !s.status
  {
    assert WaitInv(WaitState(PollComp, s.xfer, s.stray.flag, s.status));
  }

  lemma StopGoesOn(steps: seq<Step>, s: State) returns (more: seq<Step>)
    requires Whole(steps) && Run(steps) == Some(s) && Inv(s) && !s.misled
    requires s.pc == XferWait(PollComp) && s.kind == Stop && s.cmd.phase == GOOD
    ensures steps <= more && Run(more).Some? && Run(more).value.pc == XferReturn
  {
    StopWaits(s);
    var t;
    more, t := GoDelivered(steps, s);
    FinishedWait(WaitState(PollComp, t.xfer, t.stray.flag, t.status));
    more := FinishXferWait(more, t);
    var u := Run(more).value;
    assert u.pc == XferWait(Returned) && !u.inIsr && u.kind == Stop;
    more := GoMain(more, u);
  }

  // The wait for CMD12's busy phase can return exactly if CMD12 itself has been answered cleanly; its
  // own status is not looked at.
  lemma StopReturns(steps: seq<Step>)
    requires Whole(steps) && Run(steps).Some? && !Run(steps).value.misled
    requires Run(steps).value.pc == XferWait(PollComp) && Run(steps).value.kind == Stop
    ensures Run(steps).value.cmd.phase == GOOD
      <==> exists more :: Run(steps + more).Some? && Run(steps + more).value.pc == XferReturn
    ensures Run(steps).value.cmd.phase != GOOD ==>
      forall more :: Run(steps + more).Some? ==> Stuck(Run(steps + more).value)
  {
    var s := Run(steps).value;
    InvAlways(steps);
    if s.cmd.phase == GOOD {
      var b := StopGoesOn(steps, s);
      var more := b[|steps|..];
      assert steps + more == b;
    } else {
      StuckHere(s);
      forall more | Run(steps + more).Some? ensures Stuck(Run(steps + more).value) {
        StuckForEver(steps, more);
      }
    }
  }

  lemma StuckHere(s: State)
    requires Inv(s) && !s.misled && s.pc == XferWait(PollComp) && s.kind == Stop && s.cmd.phase != GOOD
    ensures Stuck(s)
  {
    assert WaitInv(WaitState(PollComp, s.xfer, s.stray.flag, s.status));
    assert Read(s.cmd);
  }
}
