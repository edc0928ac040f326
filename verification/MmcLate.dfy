// What the protocol does with reports that come too late: a second part of a command report, and the
// callback of a DMA transfer the driver has given up.
module MmcLate {
  import opened Words
  import opened MmcProtocol

  // ---- Where a run can lead ----

  // From the end of a run a state can be reached with every further command phase reported in one part.
  ghost predicate Reaches(base: seq<Step>, s: State) {
    exists more :: Whole(more) && Run(base + more) == Some(s)
  }

  lemma ReachesItself(base: seq<Step>, s: State)
    requires Run(base) == Some(s)
    ensures Reaches(base, s)
  {
    assert base + [] == base;
    assert Whole([]);
  }

  lemma ReachStep(base: seq<Step>, s: State, e: Step)
    requires Reaches(base, s) && Enabled(s, e) && !e.RaiseLate?
    ensures Reaches(base, Next(s, e))
  {
    var more :| Whole(more) && Run(base + more) == Some(s);
    var longer := more + [e];
    assert base + longer == (base + more) + [e];
    assert (base + longer)[..|base + longer| - 1] == base + more;
    assert Whole(longer);
  }

  lemma ReachMain(base: seq<Step>, s: State)
    requires Reaches(base, s) && !s.inIsr
    ensures Reaches(base, NextMain(s, Plain, false))
  {
    ReachStep(base, s, Main(Plain, false));
  }

  lemma {:induction false} ReachCmdEnd(base: seq<Step>, s: State)
    requires Reaches(base, s) && !s.inIsr && s.pc.CmdWait? && UnderWay(CmdOf(s))
    ensures Reaches(base, NextCmdWait(s, Finished(CmdOf(s))))
    decreases Left(CmdOf(s))
  {
    var w := CmdOf(s);
    if w.at != Returned {
      ReachMain(base, s);
      StillNoStray(w);
      SameCmdWait(s, NextWait(w), Finished(NextWait(w)));
      ReachCmdEnd(base, NextCmdWait(s, NextWait(w)));
    } else {
      assert NextCmdWait(s, w) == s;
    }
  }

  lemma SameCmdWait(s: State, n: WaitState, m: WaitState)
    requires n.stray == NO
    ensures NextCmdWait(NextCmdWait(s, n), m) == NextCmdWait(s, m)
    ensures CmdOf(NextCmdWait(s, n)) == n && NextCmdWait(s, n).inIsr == s.inIsr
  {
  }

  lemma {:induction false} ReachXferEnd(base: seq<Step>, s: State)
    requires Reaches(base, s) && !s.inIsr && s.pc.XferWait? && UnderWay(XferOf(s))
    ensures Reaches(base, NextXferWait(s, Finished(XferOf(s))))
    decreases Left(XferOf(s))
  {
    var w := XferOf(s);
    if w.at != Returned {
      ReachMain(base, s);
      StillNoStray(w);
      SecondStep(s, NextWait(w), Finished(NextWait(w)));
      ReachXferEnd(base, NextXferWait(s, NextWait(w)));
    } else {
      assert NextXferWait(s, w) == s;
    }
  }

  // ---- A command phase reported in two parts ----

  // The late completion is raised and delivered.
  lemma GoLate(steps: seq<Step>, a: State) returns (more: seq<Step>, b: State)
    requires Run(steps) == Some(a) && a.pc == Idle && !a.inIsr
    requires a.cmd.phase.Over? && a.cmd.stat == NO && a.cmd.flag == NO
    ensures Run(more) == Some(b) && b.pc == Idle && !b.inIsr && b.cmd.flag == Pair(true, false)
  {
    var c := Next(a, RaiseLate(Pair(true, false)));
    more := Go(steps, a, RaiseLate(Pair(true, false)));
    var d := Next(c, EnterIsr);
    more := Go(more, c, EnterIsr);
    b := Next(d, LeaveIsr);
    more := Go(more, d, LeaveIsr);
  }

  // A completion raised after its command's timeout has been dealt with makes the wait for the next
  // command return 1 while that command is still running.
  lemma LateCompletionHitsNextCommand() returns (steps: seq<Step>)
    ensures Run(steps).Some?
    ensures var s := Run(steps).value; s.pc == CmdWait(Returned) && s.status && s.cmd.phase == Running
  {
    var a, b;
    steps, a := TimedOut();
    steps, b := GoLate(steps, a);
    steps := NextCommandFooled(steps, b);
  }

  lemma NextCommandFooled(steps: seq<Step>, b: State) returns (more: seq<Step>)
    requires Run(steps) == Some(b) && b.pc == Idle && !b.inIsr && b.cmd.flag == Pair(true, false)
    ensures Run(more).Some?
    ensures var s := Run(more).value; s.pc == CmdWait(Returned) && s.status && s.cmd.phase == Running
  {
    var c := NextPreparing(b, Plain, false);
    more := Go(steps, b, Main(Plain, false));
    var d := NextIssue(c);
    more := GoMain(more, c);
    var w := WaitState(PollComp, d.cmd, NO, false);
    assert d.pc == CmdWait(PollComp) && d.cmd.phase == Running && !d.status && Or(w.side.flag, NO) == Pair(true, false);
    FinishedWait(w);
    more := FinishCmdWait(more, d);
  }

  // A first command times out ...
  lemma FirstTimeout() returns (steps: seq<Step>, d: State)
    ensures Whole(steps) && Run(steps) == Some(d)
    ensures d.pc == CmdWait(PollComp) && d.cmd.flag == Pair(false, true) && !d.status && !d.inIsr && d.kind == Plain
  {
    steps := [];
    var a := NextPreparing(INIT, Plain, false);
    steps := Go(steps, INIT, Main(Plain, false));
    var b := NextIssue(a);
    steps := GoMain(steps, a);
    var c := NextRaiseCmd(b, Pair(false, true));
    steps := Go(steps, b, RaiseCmd(Pair(false, true)));
    steps := Go(steps, c, EnterIsr);
    d := Next(Next(c, EnterIsr), LeaveIsr);
    steps := Go(steps, Next(c, EnterIsr), LeaveIsr);
  }

  // ... and its wait is over.
  lemma TimedOut() returns (steps: seq<Step>, s: State)
    ensures Whole(steps) && Run(steps) == Some(s)
    ensures s.pc == Idle && !s.inIsr && s.cmd.phase.Over? && s.cmd.stat == NO && s.cmd.flag == NO
  {
    var d;
    steps, d := FirstTimeout();
    FinishedWait(WaitState(PollComp, d.cmd, NO, false));
    steps := FinishCmdWait(steps, d);
    var e := NextCmdWait(d, Finished(WaitState(PollComp, d.cmd, NO, false)));
    CmdInvAlways(steps);
    AfterCommandKeepsCmd(e);
    steps := GoMain(steps, e);
    s := NextAfterCommand(e);
    assert Placed(s.cmd);
  }

  // ---- What a late report can harm ----

  // A command wait that has returned says what became of its own command.
  predicate Truthful(s: State) {
    s.pc == CmdWait(Returned) ==> s.cmd.phase.Over? && (s.status <==> s.cmd.phase == GOOD)
  }

  ghost predicate Fooled(base: seq<Step>) {
    exists t :: Reaches(base, t) && !Truthful(t)
  }

  predicate Polls(w: Wait) { w == PollComp || w == PollTimeout }

  // CMD12 has not been answered and nothing else can end the wait for its busy phase, so that no command
  // will ever be waited for again.
  predicate Doomed(s: State) {
    && s.kind == Stop && s.xfer == UNUSED && s.stray == NONE && s.cmd.phase.Over?
    && (s.pc.CmdWait? || (s.pc.XferWait? && Polls(s.pc.wait)))
  }

  // ---- The transfer report is still to be had ----

  predicate Awaits(pc: Pc) { pc.CmdWait? || (pc.XferWait? && Polls(pc.wait)) }

  function Bits(d: Side): Pair { Or(d.flag, Or(d.stat, d.isr)) }

  // Also in transfers started with a stray report outstanding
  predicate Alive(s: State) {
    && NotHeld(s)
    && (Awaits(s.pc) ==> (s.xfer.phase == Off ==> s.xfer == UNUSED) && (s.xfer.phase.Over? ==> Bits(s.xfer) != NO))
    && (s.pc.CmdWait? && Transfers(s.kind) && s.cmd.phase == GOOD ==> s.xfer.phase != Off)
    && (s.pc.XferWait? && Polls(s.pc.wait) && s.kind == Data ==> s.xfer.phase != Off)
  }

  lemma XferWaitAlive(s: State)
    requires Alive(s) && s.pc.XferWait? && s.pc.wait != Returned
    ensures Alive(NextXferWait(s, NextWait(XferOf(s))))
  {
    var w := XferOf(s);
    WaitLeavesIsr(w);
    WaitKeepsHeld(s, NextWait(w));
    assert Polls(NextWait(w).at) ==> Polls(w.at) && NextWait(w).side == w.side;
  }

  lemma CmdWaitAlive(s: State)
    requires CmdInv(s) && Alive(s) && s.pc.CmdWait? && s.pc.wait != Returned
    ensures Alive(NextCmdWait(s, NextWait(CmdOf(s))))
  {
    WaitKeepsInv(CmdOf(s));
  }

  lemma AfterCommandAlive(s: State)
    requires CmdInv(s) && Alive(s) && s.pc == CmdWait(Returned)
    ensures Alive(NextAfterCommand(s))
  {
    AfterCommandKeepsCmd(s);
  }

  lemma PreparingAlive(s: State, kind: Kind, multi: bool)
    requires Alive(s) && Preparing(s.pc) && s.pc != Issue
    ensures Alive(NextPreparing(s, kind, multi))
  {
    assert Preparing(NextPreparing(s, kind, multi).pc);
  }

  lemma IssueAlive(s: State)
    requires Alive(s) && !s.inIsr
    ensures Alive(NextIssue(s))
  {
  }

  lemma RestAlive(s: State)
    requires Alive(s) && Transferring(s.pc) && (s.pc.XferWait? ==> s.pc.wait == Returned)
    ensures Alive(NextTransfer(s))
  {
    TransferKeepsHeld(s);
    RestAwaitsNothing(s);
    HeldAlive(NextTransfer(s));
  }

  lemma RestAwaitsNothing(s: State)
    requires Transferring(s.pc) && (s.pc.XferWait? ==> s.pc.wait == Returned)
    ensures !Awaits(NextTransfer(s).pc)
  {
    if InCallback(s.pc) {
      PollPc(s);
    } else if s.pc == XferReturn {
      ReturnPc(s);
    }
  }

  lemma PollPc(s: State)
    requires InCallback(s.pc)
    ensures NextTransfer(s) == NextPoll(s) && (InCallback(NextPoll(s).pc) || NextPoll(s).pc == XferReturn)
  {
  }

  lemma ReturnPc(s: State)
    requires s.pc == XferReturn
    ensures NextTransfer(s) == NextAfterTransfer(s)
    ensures NextAfterTransfer(s).pc == Idle || NextAfterTransfer(s).pc == Issue
  {
  }

  lemma HeldAlive(s: State)
    requires NotHeld(s) && !Awaits(s.pc)
    ensures Alive(s)
  {
  }

  lemma MainAlive(s: State, kind: Kind, multi: bool)
    requires CmdInv(s) && Alive(s) && !s.inIsr
    ensures Alive(NextMain(s, kind, multi))
  {
    if s.pc == CmdWait(Returned) {
      AfterCommandAlive(s);
    } else if s.pc.CmdWait? {
      CmdWaitAlive(s);
    } else if s.pc.XferWait? && s.pc.wait != Returned {
      XferWaitAlive(s);
    } else if Transferring(s.pc) {
      RestAlive(s);
    } else if s.pc == Issue {
      IssueAlive(s);
    } else {
      PreparingAlive(s, kind, multi);
    }
  }

  lemma IsrAlive(s: State, e: Step)
    requires Alive(s) && (e == EnterIsr || e == LeaveIsr) && Enabled(s, e)
    ensures Alive(Next(s, e))
  {
    StepKeepsHeld(s, e);
  }

  lemma StepAlive(s: State, e: Step)
    requires CmdInv(s) && Alive(s) && Enabled(s, e) && !e.RaiseLate?
    ensures Alive(Next(s, e))
  {
    match e
    case Main(kind, multi) => MainAlive(s, kind, multi);
    case RaiseCmd(r) => StepKeepsHeld(s, e);
    case EnterIsr => IsrAlive(s, e);
    case LeaveIsr => IsrAlive(s, e);
    case _ => StepKeepsHeld(s, e);
  }

  lemma {:induction false} AliveAlways(steps: seq<Step>)
    requires Whole(steps) && Run(steps).Some?
    ensures CmdInv(Run(steps).value) && Alive(Run(steps).value)
  {
    CmdInvAlways(steps);
    if steps != [] {
      var n := |steps| - 1;
      AliveAlways(steps[..n]);
      StepAlive(Run(steps[..n]).value, steps[n]);
    }
  }

  // ---- From a report on its way to the wait it fools ----

  // Nothing but a late report stands on the command side, and no command is waited for.
  predicate Loaded(s: State) { !s.inIsr && !s.pc.CmdWait? && Or(s.cmd.stat, s.cmd.flag) != NO }

  lemma SetFlagFools(base: seq<Step>, s: State)
    requires Reaches(base, s) && s.pc == CmdWait(PollComp) && !s.inIsr && s.cmd.phase == Running && s.cmd.flag != NO
    ensures Fooled(base)
  {
    FinishedWait(CmdOf(s));
    ReachCmdEnd(base, s);
    var t := NextCmdWait(s, Finished(CmdOf(s)));
    assert Reaches(base, t) && !Truthful(t);
  }

  lemma FromIssue(base: seq<Step>, s: State)
    requires Reaches(base, s) && Loaded(s) && s.pc == Issue
    ensures Fooled(base)
  {
    ReachMain(base, s);
    var a := NextIssue(s);
    if a.cmd.flag != NO {
      SetFlagFools(base, a);
    } else {
      ReachStep(base, a, EnterIsr);
      var b := Next(a, EnterIsr);
      ReachStep(base, b, LeaveIsr);
      SetFlagFools(base, Next(b, LeaveIsr));
    }
  }

  function StepsToIssue(pc: Pc): nat {
    match pc
    case Idle => 1
    case SetupCallback => 4
    case SetupXfer => 3
    case SetupDma => 2
    case ClearStat => 1
    case _ => 0
  }

  lemma PreparingGoesOn(s: State)
    requires Preparing(s.pc) && s.pc != Issue
    ensures var t := NextPreparing(s, Plain, false);
      && NextMain(s, Plain, false) == t && t.cmd == s.cmd && t.inIsr == s.inIsr
      && Preparing(t.pc) && StepsToIssue(t.pc) < StepsToIssue(s.pc)
  {
  }

  lemma {:induction false} FromPreparing(base: seq<Step>, s: State)
    requires Reaches(base, s) && Loaded(s) && Preparing(s.pc)
    ensures Fooled(base)
    decreases StepsToIssue(s.pc)
  {
    if s.pc == Issue {
      FromIssue(base, s);
    } else {
      ReachMain(base, s);
      PreparingGoesOn(s);
      FromPreparing(base, NextPreparing(s, Plain, false));
    }
  }

  lemma {:induction false} FromPoll(base: seq<Step>, s: State)
    requires Reaches(base, s) && Loaded(s) && (InCallback(s.pc) || s.pc == XferReturn)
    ensures Fooled(base)
    decreases !(s.pc == XferReturn), s.pc != CbClear, s.timeOut, s.pc == CbPoll
  {
    ReachMain(base, s);
    if s.pc == XferReturn {
      FromPreparing(base, NextAfterTransfer(s));
    } else {
      FromPoll(base, NextPoll(s));
    }
  }

  lemma FromXferWait(base: seq<Step>, s: State)
    requires Reaches(base, s) && Loaded(s) && s.pc.XferWait? && UnderWay(XferOf(s))
    ensures Fooled(base)
  {
    FinishedWait(XferOf(s));
    ReachXferEnd(base, s);
    var t := NextXferWait(s, Finished(XferOf(s)));
    ReachMain(base, t);
    FromPoll(base, t.(pc := if t.kind == Data then CbPoll else XferReturn));
  }

  // Some report can still end the transfer wait.
  predicate Awaited(s: State) {
    || s.xfer.phase == Running || s.stray.running
    || Or(s.xfer.stat, s.stray.stat) != NO || Or(s.xfer.flag, s.stray.flag) != NO
  }

  // The interrupt routine has run.
  function TakenOver(s: State): State {
    s.(cmd := Deliver(Capture(s.cmd)), xfer := Deliver(Capture(s.xfer)), stray := DeliverStray(CaptureStray(s.stray)))
  }

  lemma TakenFlags(s: State)
    requires Loaded(s) && s.pc.XferWait? && Or(s.xfer.stat, s.stray.stat) != NO
    ensures Enabled(s, EnterIsr) && Next(Next(s, EnterIsr), LeaveIsr) == TakenOver(s)
    ensures Loaded(TakenOver(s)) && UnderWay(XferOf(TakenOver(s)))
  {
    FlagsTaken(s.xfer, s.stray);
    assert Enabled(s, EnterIsr);
  }

  lemma FlagsTaken(d: Side, x: Stray)
    requires Or(d.stat, x.stat) != NO
    ensures Or(Deliver(Capture(d)).flag, DeliverStray(CaptureStray(x)).flag) != NO
  {
  }

  lemma FromRaised(base: seq<Step>, s: State)
    requires Reaches(base, s) && Loaded(s) && s.pc.XferWait? && Or(s.xfer.stat, s.stray.stat) != NO
    ensures Fooled(base)
  {
    TakenFlags(s);
    ReachStep(base, s, EnterIsr);
    ReachStep(base, Next(s, EnterIsr), LeaveIsr);
    FromXferWait(base, TakenOver(s));
  }

  lemma FromRunning(base: seq<Step>, s: State, e: Step)
    requires Reaches(base, s) && Loaded(s) && s.pc.XferWait? && (e.RaiseXfer? || e.RaiseStray?) && Enabled(s, e)
    ensures Fooled(base)
  {
    ReachStep(base, s, e);
    FromRaised(base, Next(s, e));
  }

  lemma FromAwaited(base: seq<Step>, s: State)
    requires Reaches(base, s) && Loaded(s) && s.pc.XferWait? && (Polls(s.pc.wait) ==> Awaited(s))
    ensures Fooled(base)
  {
    if UnderWay(XferOf(s)) {
      FromXferWait(base, s);
    } else if Or(s.xfer.stat, s.stray.stat) != NO {
      FromRaised(base, s);
    } else {
      var good := Pair(true, false);
      FromRunning(base, s, if s.xfer.phase == Running then RaiseXfer(good) else RaiseStray(good));
    }
  }

  // ---- The command wait under way when the report comes late ----

  // The wait goes on as it would have, whatever the status register and the history hold.
  lemma {:induction false} FinishedSame(w: WaitState, phase: Phase, stat: Pair)
    requires UnderWay(w)
    ensures var v := w.(side := w.side.(phase := phase, stat := stat));
      UnderWay(v) && Finished(v) == Finished(w).(side := Finished(w).side.(phase := phase, stat := stat))
    decreases Left(w)
  {
    var v := w.(side := w.side.(phase := phase, stat := stat));
    if w.at != Returned {
      StillNoStray(w);
      assert NextWait(v) == NextWait(w).(side := NextWait(w).side.(phase := phase, stat := stat));
      FinishedSame(NextWait(w), phase, stat);
    }
  }

  lemma {:induction false} FinishedInv(w: WaitState)
    requires UnderWay(w) && WaitInv(w)
    ensures WaitInv(Finished(w)) && Finished(w).at == Returned && Finished(w).side.phase == w.side.phase
    decreases Left(w)
  {
    if w.at != Returned {
      StillNoStray(w);
      WaitKeepsInv(w);
      FinishedInv(NextWait(w));
    }
  }

  lemma FlagIsThere(s: State)
    requires CmdInv(s) && !s.inIsr && s.pc.CmdWait? && s.cmd.phase.Over? && s.cmd.at != InStat
    ensures UnderWay(CmdOf(s)) && s.cmd.stat == NO
  {
    assert WaitInv(CmdOf(s));
  }

  lemma FromCmdWait(base: seq<Step>, s: State, r: Pair)
    requires CmdInv(s) && Alive(s) && !s.inIsr && s.pc.CmdWait? && s.cmd.phase.Over? && s.cmd.at != InStat
    requires !Doomed(s) && r != NO && Reaches(base, Later(s, r))
    ensures Fooled(base)
  {
    var t := Later(s, r);
    LateWaitEnds(s, r);
    ReachCmdEnd(base, t);
    var u := NextCmdWait(t, Finished(CmdOf(t)));
    ReachMain(base, u);
    AfterLate(base, u, s);
  }

  lemma LateWaitEnds(s: State, r: Pair)
    requires CmdInv(s) && !s.inIsr && s.pc.CmdWait? && s.cmd.phase.Over? && s.cmd.at != InStat && r != NO
    ensures var w := CmdOf(Later(s, r));
      && UnderWay(w) && Finished(w).at == Returned && Finished(w).side.stat == r
      && (Finished(w).status <==> s.cmd.phase == GOOD)
  {
    var t := Later(s, r);
    FlagIsThere(s);
    assert WaitInv(CmdOf(s));
    FinishedSame(CmdOf(s), t.cmd.phase, t.cmd.stat);
    FinishedInv(CmdOf(s));
    assert t.cmd == s.cmd.(phase := t.cmd.phase, stat := t.cmd.stat) && t.cmd.stat == r;
  }

  lemma AfterLate(base: seq<Step>, u: State, s: State)
    requires Alive(s) && s.pc.CmdWait? && !Doomed(s) && s.cmd.phase.Over?
    requires u == s.(pc := CmdWait(Returned), cmd := u.cmd, status := u.status) && !u.inIsr
    requires u.cmd.stat != NO && (u.status <==> s.cmd.phase == GOOD) && Reaches(base, NextAfterCommand(u))
    ensures Fooled(base)
  {
    var v := NextAfterCommand(u);
    if v.pc == Idle {
      FromPreparing(base, v);
    } else {
      assert Awaited(v);
      FromAwaited(base, v);
    }
  }

  // A second part that comes when the first is past the status register fools the next command.
  lemma FromLate(base: seq<Step>, s: State, r: Pair)
    requires CmdInv(s) && Alive(s) && !s.inIsr && s.cmd.phase.Over? && s.cmd.at != InStat
    requires !Doomed(s) && r != NO && Reaches(base, Later(s, r))
    ensures Fooled(base)
  {
    var t := Later(s, r);
    if s.pc.CmdWait? {
      FromCmdWait(base, s, r);
    } else if s.pc.XferWait? {
      FromAwaited(base, t);
    } else if Transferring(s.pc) {
      FromPoll(base, t);
    } else {
      FromPreparing(base, t);
    }
  }

  lemma LeaveLater(s: State, r: Pair)
    requires s.inIsr && s.cmd.phase.Over? && s.cmd.at != InStat && !Doomed(s)
    ensures var u := Next(s, LeaveIsr);
      && u.cmd.phase.Over? && Next(Later(s, r), LeaveIsr) == Later(u, r)
      && u.cmd.at != InStat && !Doomed(u) && !u.inIsr
  {
  }

  lemma LateFools(base: seq<Step>, s: State, r: Pair)
    requires CmdInv(s) && Alive(s) && s.cmd.phase.Over? && s.cmd.at != InStat
    requires !Doomed(s) && r != NO && Reaches(base, Later(s, r))
    ensures Fooled(base)
  {
    if s.inIsr {
      StepKeepsCmd(s, LeaveIsr);
      IsrAlive(s, LeaveIsr);
      LeaveLater(s, r);
      ReachStep(base, Later(s, r), LeaveIsr);
      FromLate(base, Next(s, LeaveIsr), r);
    } else {
      FromLate(base, s, r);
    }
  }

  // ---- Where a late report does no harm ----

  // The second part joins the first in the status register.
  lemma LateJoins(s: State, r: Pair)
    requires CmdInv(s) && s.cmd.phase.Over? && s.cmd.at == InStat && r != NO
    ensures CmdInv(Later(s, r))
  {
    assert Placed(s.cmd);
    assert Placed(Later(s, r).cmd);
  }

  lemma {:induction false} JoinedStaysTruthful(base: seq<Step>, more: seq<Step>)
    requires Run(base).Some? && CmdInv(Run(base).value) && Whole(more) && Run(base + more).Some?
    ensures CmdInv(Run(base + more).value) && Truthful(Run(base + more).value)
    decreases |more|
  {
    if more == [] {
      assert base + more == base;
    } else {
      var n := |more| - 1;
      assert (base + more)[..|base + more| - 1] == base + more[..n] && (base + more)[|base + more| - 1] == more[n];
      JoinedStaysTruthful(base, more[..n]);
      StepKeepsCmd(Run(base + more[..n]).value, more[n]);
    }
    TruthfulByInv(Run(base + more).value);
  }

  lemma TruthfulByInv(s: State)
    requires CmdInv(s)
    ensures Truthful(s)
  {
    if s.pc == CmdWait(Returned) { assert WaitInv(CmdOf(s)); }
  }

  // The timeout that CMD12 has reported is on its way to the wait, and nothing comes after that wait.
  predicate DoomedLate(s: State) {
    && s.kind == Stop && s.xfer == UNUSED && s.stray == NONE && s.cmd.phase.Over?
    && match s.pc
       case CmdWait(w) =>
         && s.cmd.phase.report.timeout
         && if w == ClearTimeout || w == Returned then !s.status
            else Or(s.cmd.flag, s.cmd.isr).timeout && (!s.inIsr ==> s.cmd.flag.timeout)
       case XferWait(w) => Polls(w)
       case _ => false
  }

  lemma DoomedIsLate(s: State, r: Pair)
    requires CmdInv(s) && Alive(s) && Doomed(s) && s.cmd.at != InStat && r != NO
    ensures DoomedLate(Later(s, r))
  {
    if s.pc.CmdWait? {
      assert WaitInv(CmdOf(s));
      assert s.cmd.phase != GOOD;
    }
  }

  lemma DoomedCmdWait(s: State)
    requires DoomedLate(s) && s.pc.CmdWait? && s.pc.wait != Returned && !s.inIsr
    ensures DoomedLate(NextCmdWait(s, NextWait(CmdOf(s))))
  {
  }

  lemma DoomedReturned(s: State)
    requires DoomedLate(s) && s.pc == CmdWait(Returned)
    ensures DoomedLate(NextAfterCommand(s))
  {
  }

  lemma DoomedElse(s: State, e: Step)
    requires DoomedLate(s) && s.pc.CmdWait? && Enabled(s, e) && !e.RaiseLate? && !e.Main?
    ensures DoomedLate(Next(s, e))
  {
  }

  lemma StuckIsDoomed(s: State)
    requires s.pc.XferWait?
    ensures Stuck(s) <==> DoomedLate(s)
  {
  }

  lemma DoomedStep(s: State, e: Step)
    requires DoomedLate(s) && Enabled(s, e) && !e.RaiseLate?
    ensures DoomedLate(Next(s, e))
  {
    if s.pc.XferWait? {
      StuckIsDoomed(s);
      StuckStays(s, e);
      StuckIsDoomed(Next(s, e));
    } else if !e.Main? {
      DoomedElse(s, e);
    } else if s.pc.wait == Returned {
      DoomedReturned(s);
    } else {
      DoomedCmdWait(s);
    }
  }

  lemma {:induction false} DoomedStaysTruthful(base: seq<Step>, more: seq<Step>)
    requires Run(base).Some? && DoomedLate(Run(base).value) && Whole(more) && Run(base + more).Some?
    ensures DoomedLate(Run(base + more).value) && Truthful(Run(base + more).value)
    decreases |more|
  {
    if more == [] {
      assert base + more == base;
    } else {
      var n := |more| - 1;
      assert (base + more)[..|base + more| - 1] == base + more[..n] && (base + more)[|base + more| - 1] == more[n];
      DoomedStaysTruthful(base, more[..n]);
      DoomedStep(Run(base + more[..n]).value, more[n]);
    }
  }

  // After a report in two parts every later command wait, in every continuation, is truthful exactly if
  // the first part was still in the status register when the second came, or an unanswered CMD12 was about
  // to leave the driver waiting for ever.
  lemma LateIsHarmless(steps: seq<Step>, r: Pair)
    requires Whole(steps) && Run(steps).Some? && Enabled(Run(steps).value, RaiseLate(r))
    ensures Run(steps).value.cmd.at == InStat || Doomed(Run(steps).value)
      <==> forall more :: Whole(more) && Run(steps + [RaiseLate(r)] + more).Some? ==>
             Truthful(Run(steps + [RaiseLate(r)] + more).value)
  {
    var s, base := Run(steps).value, steps + [RaiseLate(r)];
    assert base[..|steps|] == steps;
    assert Run(base) == Some(Later(s, r));
    AliveAlways(steps);
    if s.cmd.at == InStat {
      LateJoins(s, r);
      forall more | Whole(more) && Run(base + more).Some? ensures Truthful(Run(base + more).value) {
        JoinedStaysTruthful(base, more);
      }
    } else if Doomed(s) {
      DoomedIsLate(s, r);
      forall more | Whole(more) && Run(base + more).Some? ensures Truthful(Run(base + more).value) {
        DoomedStaysTruthful(base, more);
      }
    } else {
      ReachesItself(base, Later(s, r));
      LateFools(base, s, r);
    }
  }

  // ---- The callback of a transfer that was given up ----

  // While the command written after s is dealt with: nothing foreign can set the callback flag, and what
  // has set it is the transfer of this command.
  predicate OwnPoll(s: State, t: State) {
    && (t.serial == s.serial ==> t.pc == Issue && t.kind == Data && !t.callback && !t.strayDma && t.dma == Armed)
    && (t.serial == s.serial + 1 && !Preparing(t.pc) ==> t.kind == Data && !t.strayDma && OwnAt(t))
    && t.serial >= s.serial
  }

  predicate OwnAt(t: State) {
    match t.pc
    case CmdWait(_) => if t.cmd.phase == Running then t.dma == Armed && !t.callback else t.callback ==> t.dma == Done
    case XferWait(_) => t.callback ==> t.dma == Done
    case CbPoll => t.callback ==> t.dma == Done
    case CbCount => t.callback ==> t.dma == Done
    case _ => t.timeOut <= 0xFFFF ==> t.dma == Done
  }

  lemma OwnPreparing(s: State, t: State, kind: Kind, multi: bool)
    requires OwnPoll(s, t) && Preparing(t.pc) && t.pc != Issue
    ensures OwnPoll(s, NextPreparing(t, kind, multi))
  {
    var u := NextPreparing(t, kind, multi);
    assert Preparing(u.pc) && u.serial == t.serial;
  }

  lemma OwnCommand(s: State, t: State)
    requires CmdInv(t) && OwnPoll(s, t) && t.pc.CmdWait?
    ensures OwnPoll(s, NextCommand(t))
  {
    if t.pc.wait == Returned {
      OwnAfterCommand(s, t);
    } else {
      CommandKeepsSerial(t);
      WaitKeepsInv(CmdOf(t));
      OwnWaits(s, t, NextCmdWait(t, NextWait(CmdOf(t))));
    }
  }

  lemma OwnAfterCommand(s: State, t: State)
    requires CmdInv(t) && OwnPoll(s, t) && t.pc == CmdWait(Returned)
    ensures OwnPoll(s, NextAfterCommand(t))
  {
    AfterCommandKeepsCmd(t);
  }

  lemma OwnWaits(s: State, t: State, u: State)
    requires OwnPoll(s, t) && ((t.pc.CmdWait? && u.pc.CmdWait?) || (t.pc.XferWait? && u.pc.XferWait?))
    requires u.serial == t.serial && u.strayDma == t.strayDma && u.callback == t.callback && u.dma == t.dma
    requires u.cmd.phase == t.cmd.phase && u.kind == t.kind
    ensures OwnPoll(s, u)
  {
  }

  lemma OwnTransfer(s: State, t: State)
    requires OwnPoll(s, t) && Transferring(t.pc)
    ensures OwnPoll(s, NextTransfer(t))
  {
    if t.pc == XferWait(Returned) {
      OwnReturned(s, t);
    } else if t.pc.XferWait? {
      OwnXferWait(s, t, NextWait(XferOf(t)));
    } else if InCallback(t.pc) {
      OwnInCallback(s, t);
    } else {
      OwnReturn(s, t);
    }
  }

  lemma OwnXferWait(s: State, t: State, n: WaitState)
    requires OwnPoll(s, t) && t.pc.XferWait?
    ensures OwnPoll(s, NextXferWait(t, n))
  {
    OwnWaits(s, t, NextXferWait(t, n));
  }

  lemma OwnReturned(s: State, t: State)
    requires OwnPoll(s, t) && t.pc == XferWait(Returned)
    ensures OwnPoll(s, t.(pc := if t.kind == Data then CbPoll else XferReturn))
  {
  }

  lemma OwnReturn(s: State, t: State)
    requires OwnPoll(s, t) && t.pc == XferReturn
    ensures OwnPoll(s, NextAfterTransfer(t))
  {
  }

  lemma OwnInCallback(s: State, t: State)
    requires OwnPoll(s, t) && InCallback(t.pc)
    ensures OwnPoll(s, NextPoll(t))
  {
  }

  lemma OwnIssue(s: State, t: State)
    requires CmdInv(t) && OwnPoll(s, t) && t.pc == Issue
    ensures OwnPoll(s, NextIssue(t))
  {
  }

  lemma OwnMain(s: State, t: State, kind: Kind, multi: bool)
    requires CmdInv(t) && OwnPoll(s, t)
    ensures OwnPoll(s, NextMain(t, kind, multi))
  {
    if t.pc.CmdWait? {
      OwnCommand(s, t);
    } else if Transferring(t.pc) {
      OwnTransfer(s, t);
    } else if t.pc == Issue {
      OwnIssue(s, t);
    } else {
      OwnPreparing(s, t, kind, multi);
    }
  }

  lemma OwnStep(s: State, t: State, e: Step)
    requires CmdInv(t) && OwnPoll(s, t) && Enabled(t, e) && !e.RaiseLate?
    ensures OwnPoll(s, Next(t, e))
  {
    match e
    case Main(kind, multi) => OwnMain(s, t, kind, multi);
    case _ => OwnElse(s, t, e);
  }

  lemma OwnElse(s: State, t: State, e: Step)
    requires CmdInv(t) && OwnPoll(s, t) && Enabled(t, e) && !e.RaiseLate? && !e.Main?
    ensures OwnPoll(s, Next(t, e))
  {
    if e.RaiseCmd? {
      assert t.pc.CmdWait?;
    }
  }

  lemma {:induction false} OwnAlways(steps: seq<Step>, more: seq<Step>)
    requires Whole(steps) && Run(steps).Some? && Whole(more) && Run(steps + more).Some?
    requires OwnPoll(Run(steps).value, Run(steps).value)
    ensures OwnPoll(Run(steps).value, Run(steps + more).value)
    decreases |more|
  {
    if more == [] {
      assert steps + more == steps;
    } else {
      var n := |more| - 1;
      assert (steps + more)[..|steps + more| - 1] == steps + more[..n] && (steps + more)[|steps + more| - 1] == more[n];
      OwnAlways(steps, more[..n]);
      CmdInvAlways(steps + more[..n]);
      OwnStep(Run(steps).value, Run(steps + more[..n]).value, more[n]);
    }
  }

  // The poll of the command written after s, if it has found a callback, has found that of its own transfer.
  predicate FoundOwn(s: State, t: State) {
    t.serial == s.serial + 1 && t.pc == XferReturn && t.timeOut <= 0xFFFF ==> t.dma == Done
  }

  lemma ForeignFound(base: seq<Step>, c: State) returns (t: State)
    requires Reaches(base, c) && !c.inIsr && c.pc == XferWait(PollComp) && c.kind == Data && c.xfer.phase == Running
    requires c.dma == Flying && c.callback && c.timeOut == 0xFFFF
    ensures Reaches(base, t) && t.serial == c.serial && t.pc == XferReturn && t.timeOut == 0xFFFF && t.dma == Flying
  {
    var good := RaiseXfer(Pair(true, false));
    ReachStep(base, c, good);
    var d := Next(c, good);
    ReachStep(base, d, EnterIsr);
    ReachStep(base, Next(d, EnterIsr), LeaveIsr);
    var e := TakenOver(d);
    FlagsTaken(d.xfer, d.stray);
    FinishedWait(XferOf(e));
    ReachXferEnd(base, e);
    t := FromReturnedWait(base, NextXferWait(e, Finished(XferOf(e))));
  }

  lemma FromReturnedWait(base: seq<Step>, s: State) returns (t: State)
    requires Reaches(base, s) && !s.inIsr && s.pc == XferWait(Returned) && s.kind == Data && s.callback
    ensures Reaches(base, t) && t == s.(pc := XferReturn, callback := false, status := s.status && s.timeOut != 0)
  {
    ReachMain(base, s);
    var a := s.(pc := CbPoll);
    ReachMain(base, a);
    var b := a.(pc := CbClear);
    assert NextPoll(a) == b;
    ReachMain(base, b);
    t := NextPoll(b);
  }

  lemma ForeignFrom(d: seq<Step>, c: State) returns (t: State)
    requires Reaches(d, c) && !c.inIsr && c.pc == XferWait(PollComp) && c.kind == Data && c.xfer.phase == Running
    requires c.dma == Flying && (c.callback || c.strayDma) && c.timeOut == 0xFFFF
    ensures Reaches(d, t) && t.serial == c.serial && t.pc == XferReturn && t.timeOut == 0xFFFF && t.dma == Flying
  {
    if c.callback {
      t := ForeignFound(d, c);
    } else {
      ReachStep(d, c, FinishStrayDma);
      t := ForeignFound(d, Next(c, FinishStrayDma));
    }
  }

  lemma ReachBeyond(steps: seq<Step>, d: seq<Step>, t: State) returns (more: seq<Step>)
    requires Whole(d) && steps <= d && Reaches(d, t)
    ensures Whole(more) && Run(steps + more) == Some(t)
  {
    var tail :| Whole(tail) && Run(d + tail) == Some(t);
    more := d[|steps|..] + tail;
    assert steps + more == d + tail;
  }

  lemma Foreign(steps: seq<Step>) returns (more: seq<Step>)
    requires Whole(steps) && Run(steps).Some? && Run(steps).value.pc == Issue && Run(steps).value.kind == Data
    requires Run(steps).value.callback || Run(steps).value.strayDma
    ensures Whole(more) && Run(steps + more).Some? && !FoundOwn(Run(steps).value, Run(steps + more).value)
  {
    var a, b := LeaveFirst(steps, Run(steps).value);
    var d, c := ToDataWait(a, b);
    ReachesItself(d, c);
    var t := ForeignFrom(d, c);
    more := ReachBeyond(steps, d, t);
  }

  // The next poll for a callback, if it finds one, finds that of its own transfer, whatever happens, exactly
  // if at the writing of the command the flag is clear and no transfer that was given up is still to report.
  lemma NextPollIsOwn(steps: seq<Step>)
    requires Whole(steps) && Run(steps).Some? && Run(steps).value.pc == Issue && Run(steps).value.kind == Data
    ensures !Run(steps).value.callback && !Run(steps).value.strayDma
      <==> forall more :: Whole(more) && Run(steps + more).Some? ==>
             FoundOwn(Run(steps).value, Run(steps + more).value)
  {
    var s := Run(steps).value;
    if !s.callback && !s.strayDma {
      DmaInvAlways(steps);
      forall more | Whole(more) && Run(steps + more).Some? ensures FoundOwn(s, Run(steps + more).value) {
        OwnAlways(steps, more);
      }
    } else {
      var more := Foreign(steps);
    }
  }

  // ---- A driver about to wait for ever ----

  lemma InvWhereReached(base: seq<Step>, s: State)
    requires Whole(base) && Reaches(base, s)
    ensures Inv(s)
  {
    var more :| Whole(more) && Run(base + more) == Some(s);
    InvAlways(base + more);
  }

  // A block command for several blocks is set up first of all.
  const FIRST := INIT.(pc := SetupDma, kind := Data, multi := true)

  lemma FirstSteps()
    ensures var a := INIT.(pc := SetupCallback, kind := Data, multi := true);
      && NextPreparing(INIT, Data, true) == a && NextPreparing(a, Plain, false) == a.(pc := SetupXfer)
      && NextPreparing(a.(pc := SetupXfer), Plain, false) == FIRST
  {
  }

  lemma FirstSetUp() returns (steps: seq<Step>)
    ensures Whole(steps) && Run(steps) == Some(FIRST)
  {
    FirstSteps();
    var a := INIT.(pc := SetupCallback, kind := Data, multi := true);
    steps := Go([], INIT, Main(Data, true));
    steps := GoMain(steps, a);
    steps := GoMain(steps, a.(pc := SetupXfer));
  }

  lemma FirstBlocks() returns (steps: seq<Step>, s: State)
    ensures Whole(steps) && Run(steps) == Some(s)
    ensures s.pc == Issue && s.kind == Data && s.multi && !s.inIsr && Clear(s)
  {
    steps := FirstSetUp();
    steps, s := StraightOn(steps, FIRST);
  }

  // Data and callback come in.
  lemma DataComeIn(base: seq<Step>, c: State) returns (t: State)
    requires Reaches(base, c) && !c.inIsr && c.pc == XferWait(PollComp) && c.kind == Data && c.xfer.phase == Running
    requires c.dma == Flying && c.timeOut == 0xFFFF && c.multi && !c.misled && c.xfer.flag == NO
    ensures Reaches(base, t) && t.pc == XferReturn && t.kind == Data && t.multi && !t.misled && !t.inIsr
    ensures t.xfer.phase == GOOD && t.timeOut == 0xFFFF
  {
    ReachStep(base, c, FinishDma);
    var d := Next(c, FinishDma);
    ReachStep(base, d, RaiseXfer(Pair(true, false)));
    var e := Next(d, RaiseXfer(Pair(true, false)));
    FlagsTaken(e.xfer, e.stray);
    ReachStep(base, e, EnterIsr);
    ReachStep(base, Next(e, EnterIsr), LeaveIsr);
    var f := TakenOver(e);
    FinishedWait(XferOf(f));
    ReachXferEnd(base, f);
    t := FromReturnedWait(base, NextXferWait(f, Finished(XferOf(f))));
  }

  // CMD12 is written ...
  lemma StopIssued(t: State)
    requires Inv(t) && !t.misled && t.pc == XferReturn && t.kind == Data && t.multi && t.status
    ensures var b := NextIssue(NextAfterTransfer(t));
      && NextAfterTransfer(t).pc == Issue && b.pc == CmdWait(PollComp) && b.kind == Stop && b.inIsr == t.inIsr
      && b.cmd.phase == Running && b.xfer == UNUSED && b.stray == NONE
  {
    assert Read(t.xfer) && t.stray == NONE;
  }

  // ... and times out.
  lemma StopTimesOut(base: seq<Step>, t: State) returns (u: State)
    requires Reaches(base, t) && Inv(t) && !t.misled && !t.inIsr && t.pc == XferReturn && t.kind == Data && t.multi
    requires t.status
    ensures Reaches(base, u) && Doomed(u) && u.cmd.at == InIsr
  {
    StopIssued(t);
    ReachMain(base, t);
    ReachMain(base, NextAfterTransfer(t));
    var b := NextIssue(NextAfterTransfer(t));
    ReachStep(base, b, RaiseCmd(Pair(false, true)));
    var c := NextRaiseCmd(b, Pair(false, true));
    ReachStep(base, c, EnterIsr);
    u := Next(c, EnterIsr);
  }

  // From the start a run leads there.
  lemma DoomedIsReached() returns (base: seq<Step>, u: State)
    ensures Whole(base) && Reaches(base, u) && Doomed(u) && u.cmd.at == InIsr
  {
    var a, s := FirstBlocks();
    var c;
    base, c := ToDataWait(a, s);
    ReachesItself(base, c);
    var t := DataComeIn(base, c);
    InvWhereReached(base, t);
    u := StopTimesOut(base, t);
  }
}
