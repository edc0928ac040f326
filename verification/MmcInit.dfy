// Card identification and initialisation, and what the block transfers guarantee afterwards.
module MmcInit {
  import opened Words
  import opened MmcHost
  import opened MmcSequence
  import opened MmcDriver
  import C = MmcCommand

  const CHECK_PATTERN := 0xAA
  const VOLT_2P7_3P6 := 0x100
  const OCR_HIGH_CAPACITY := 0x4000_0000
  const OCR_VDD_WILDCARD := 0x1FF * 0x8000

  predicate PoweredUp(ocr: word) { ocr >= 0x8000_0000 }          // BIT(31)
  predicate HighCapacity(ocr: word) { ocr / 0x4000_0000 % 2 == 1 }  // BIT(30)
  function Rca(r0: word): nat { r0 / TWO16 }                     // SD_RCA_ADDR
  function RdBlkLen(csd: Rsp): nat { Pow2(csd.r2 / TWO16 % 16) }  // 1 << SD_CARDx_RDBLKLEN

  function Pow2(n: nat): nat { if n == 0 then 1 else 2 * Pow2(n - 1) }

  // The fields of the registers the card answers with
  lemma OcrFields(up: nat, high: nat, rest: nat)
    requires up <= 1 && high <= 1 && rest < 0x4000_0000
    ensures PoweredUp(up * 0x8000_0000 + high * 0x4000_0000 + rest) <==> up == 1
    ensures HighCapacity(up * 0x8000_0000 + high * 0x4000_0000 + rest) <==> high == 1
  {
  }

  lemma RcaField(rca: nat, status: nat)
    requires rca < 0x1_0000 && status < 0x1_0000
    ensures Rca(rca * 0x1_0000 + status) == rca
  {
  }

  lemma CsdBlockLength(csd: Rsp, above: nat, n: nat, below: nat)
    requires csd.r2 == above * 0x10_0000 + n * 0x1_0000 + below && n < 16 && below < 0x1_0000
    ensures RdBlkLen(csd) == Pow2(n) && Pow2(9) == 512 && (n > 0 ==> Pow2(n) == 2 * Pow2(n - 1))
  {
  }

  // The commands of a successful initialisation, up to the polling of ACMD41 and after it
  const PROLOGUE: seq<Sent> := [
    Sent(0, 0, C.NoResponse), Sent(55, 0, C.Short), Sent(55, 0, C.Short),
    Sent(0, 0, C.NoResponse), Sent(8, 0x1AA, C.Short), Sent(55, 0, C.Short), Sent(41, 0x40FF_8000, C.Short)]

  // One poll per element: CMD55, and ACMD41 if the card answered it
  function Polls(answered: seq<bool>): seq<Sent> {
    if answered == [] then []
    else
      Polls(answered[..|answered| - 1])
      + [Sent(55, 0, C.Short)] + (if answered[|answered| - 1] then [Sent(41, 0x40FF_8000, C.Short)] else [])
  }

  // Commands after CMD3 that address the card carry its relative address where the card has put it in its
  // answer r0 to CMD3: in the upper half.
  function Addressing(r0: word): word { r0 - r0 % 0x1_0000 }

  function Selection(r0: word, highCap: bool): seq<Sent> {
    (if highCap then [] else [Sent(16, 512, C.NoResponse)])
    + [Sent(7, Addressing(r0), C.ShortBusy), Sent(55, Addressing(r0), C.Short)]
  }

  function Epilogue(r0: word, highCap: bool): seq<Sent> {
    [Sent(2, 0, C.Long), Sent(3, 0, C.Short), Sent(9, Addressing(r0), C.Long)]
    + (Selection(r0, highCap) + [Sent(51, Addressing(r0), C.Short)])
  }

  // ---- When the steps succeed, by the serial number k of their first command ----

  // Every command of the prologue but CMD8 has to be answered.
  predicate Identified(env: Env, k: nat) {
    env.cmdOk(k) && env.cmdOk(k + 1) && env.cmdOk(k + 2) && env.cmdOk(k + 3) && env.cmdOk(k + 5) && env.cmdOk(k + 6)
  }

  // Where n polls lead: the serial number of the next command, and the last response seen
  datatype Polled = Polled(serial: nat, rsp: Rsp)

  function AfterPolls(env: Env, k: nat, last: Rsp, n: nat): Polled {
    if n == 0 then Polled(k, last)
    else
      var p := AfterPolls(env, k, last, n - 1);
      if !env.cmdOk(p.serial) then p.(serial := p.serial + 1)
      else Polled(p.serial + 2, if env.cmdOk(p.serial + 1) then env.response(p.serial + 1) else p.rsp)
  }

  // Which of n polls have their CMD55 answered
  function Answers(env: Env, k: nat, last: Rsp, n: nat): (a: seq<bool>)
    ensures |a| == n
  {
    if n == 0 then [] else Answers(env, k, last, n - 1) + [env.cmdOk(AfterPolls(env, k, last, n - 1).serial)]
  }

  // The n-th poll is the first to show power-up, or the last that is made.
  ghost predicate PollsStop(env: Env, k: nat, last: Rsp, n: nat) {
    && 1 <= n <= 0x10000
    && (forall i :: 1 <= i < n ==> !PoweredUp(AfterPolls(env, k, last, i).rsp.r0))
    && (PoweredUp(AfterPolls(env, k, last, n).rsp.r0) || n == 0x10000)
  }

  predicate Published(env: Env, k: nat) { env.cmdOk(k) && env.cmdOk(k + 1) && env.cmdOk(k + 2) }

  predicate Selected(env: Env, k: nat, highCap: bool) {
    var s := if highCap then k else k + 1;
    (highCap || env.cmdOk(k)) && env.cmdOk(s) && env.cmdOk(s + 1)
  }

  // The serial number of CMD7, by that of the first command after CMD9; CMD55 and ACMD51 follow.
  function SelectSerial(k: nat, highCap: bool): nat { if highCap then k else k + 1 }

  // The phase of a data command, once command k has been answered, and a stray phase that was due in due
  // steps when it was written
  function Landed(env: Env, k: nat, due: int, good: bool, timeout: bool): Flight {
    var n := env.cmdDelay(k) + 1;
    Flight(env.xferDelay(k), env.xferOk(k), StrayAfter(due, n), good,
           Ends(due, n) && good, timeout || (Ends(due, n) && !good))
  }

  // What the wait for the data of ACMD51 starts from: the busy phase of CMD7, the s-th command, goes on
  // while the two commands after it are answered, and only its completion flag is cleared in between.
  function ScrFlight(env: Env, s: nat): Flight {
    var n := env.cmdDelay(s + 1) + 1;
    Landed(env, s + 2, StrayAfter(env.xferDelay(s), n), env.xferOk(s), Ends(env.xferDelay(s), n) && !env.xferOk(s))
  }

  // Steps from the start of a data phase to the completion of its DMA transfer, if it makes one
  function DmaDue(env: Env, k: nat): int { if env.xferOk(k) then env.dmaDelay(k) else -1 }

  function Found(f: Flight): nat { if FirstReport(f).Some? then FirstReport(f).value else 0 }

  // The wait for the data of command k reports success; and the data has arrived by then.
  predicate DataReported(env: Env, k: nat, f: Flight) {
    env.cmdOk(k) && WaitValue(f, Found(f), true, DmaDue(env, k)) == 1
  }

  predicate DataArrived(env: Env, k: nat, f: Flight) {
    env.xferOk(k) && DmaDue(env, k) < Found(f) + PollsMade(DmaDue(env, k), Found(f))
  }

  predicate ScrReported(env: Env, k: nat, highCap: bool) {
    var s := SelectSerial(k, highCap);
    DataReported(env, s + 2, ScrFlight(env, s))
  }

  predicate ScrArrives(env: Env, k: nat, highCap: bool) {
    var s := SelectSerial(k, highCap);
    DataArrived(env, s + 2, ScrFlight(env, s))
  }

  predicate SetUpSucceeds(env: Env, k: nat, highCap: bool) {
    Published(env, k) && Selected(env, k + 3, highCap) && ScrReported(env, k + 3, highCap)
  }

  // Where the polls of an initialisation lead that starts with command k
  function Ready(env: Env, k: nat, polls: nat): Polled {
    AfterPolls(env, k + 7, env.response(k + 6), polls)
  }

  // Power-up that comes with the last poll counts as a failure.
  predicate InitSucceeds(env: Env, k: nat, polls: nat, p: Polled) {
    && Identified(env, k) && !(PoweredUp(p.rsp.r0) && polls == 0x10000)
    && SetUpSucceeds(env, p.serial, HighCapacity(p.rsp.r0))
  }

  // A card that answers every command, or all but CMD8, is initialised if its phases end well and in time.
  lemma AnsweringCardSucceeds(env: Env, k: nat, polls: nat)
    requires (forall i :: i != k + 4 ==> env.cmdOk(i))
    requires (forall i :: env.xferOk(i) && !OnLastPoll(env, i)) && Timely(env)
    requires var p := Ready(env, k, polls);
      && PoweredUp(p.rsp.r0) && polls < 0x10000
      && BusyOver(env, SelectSerial(p.serial + 3, HighCapacity(p.rsp.r0))) && p.serial > k + 4
    ensures InitSucceeds(env, k, polls, Ready(env, k, polls))
    ensures var p := Ready(env, k, polls); ScrArrives(env, p.serial + 3, HighCapacity(p.rsp.r0))
  {
    var p := Ready(env, k, polls);
    BusyOverDecides(env, SelectSerial(p.serial + 3, HighCapacity(p.rsp.r0)));
  }

  // ---- The steps ----

  // A command without data or a busy phase
  method PlainCmd(m: Mmc, idx: bv6, flags: C.Flags, arg: word, last: Rsp) returns (status: nat, rsp: Rsp)
    requires WellFormed(m.store) && m.Idle() && !flags.busy && !flags.data
    modifies m`regs, m`sent, m`cmdDue, m`xferDue, m`dmaDue, m`xferGood, m`strayDue, m`strayGood
    modifies m`cmdCompFlag, m`cmdTimeout, m`xferCompFlag, m`dataTimeout
    ensures m.Idle() && m.sent == old(m.sent) + [Sent(idx, arg, C.Answer(flags))]
    ensures status == if m.env.cmdOk(|old(m.sent)|) then 1 else 0
    ensures rsp == if status == 1 then m.env.response(|old(m.sent)|) else last
  {
    ghost var r, de := m.regs, m.dmaEnable;
    var c := Cmd(idx, flags, arg, 0, last);
    status, rsp := m.CmdSend(c);
    m.PlainDone(r, c, de);
  }

  // MMCAppCmdSend
  method AppCmdSend(m: Mmc, idx: bv6, arg: word, last: Rsp) returns (status: nat, rsp: Rsp)
    requires WellFormed(m.store) && m.Idle() && m.info.rca < TWO16
    modifies m`regs, m`sent, m`cmdDue, m`xferDue, m`dmaDue, m`xferGood, m`strayDue, m`strayGood
    modifies m`cmdCompFlag, m`cmdTimeout, m`xferCompFlag, m`dataTimeout
    ensures m.Idle()
    ensures var k := |old(m.sent)|;
      && status == (if m.env.cmdOk(k) && m.env.cmdOk(k + 1) then 1 else 0)
      && m.sent == old(m.sent) + [Sent(55, m.info.rca * 0x1_0000, C.Short)]
                   + (if m.env.cmdOk(k) then [Sent(idx, arg, C.Short)] else [])
      && rsp == if status == 1 then m.env.response(k + 1) else last
  {
    var capp;
    status, capp := PlainCmd(m, 55, C.NO_FLAGS, m.info.rca * 0x1_0000, NO_RSP);
    if status == 0 { return 0, last; }
    status, rsp := PlainCmd(m, idx, C.NO_FLAGS, arg, last);
  }

  // Lines 363-371 of MMCCardInit: reset, check for an SD card, reset
  method CheckCard(m: Mmc) returns (status: nat)
    requires WellFormed(m.store) && m.Idle() && m.info == NO_INFO
    modifies m`regs, m`sent, m`cmdDue, m`xferDue, m`dmaDue, m`xferGood, m`strayDue, m`strayGood
    modifies m`cmdCompFlag, m`cmdTimeout, m`xferCompFlag, m`dataTimeout
    ensures m.Idle()
    ensures var k := |old(m.sent)|;
      status == 1 <==> m.env.cmdOk(k) && m.env.cmdOk(k + 1) && m.env.cmdOk(k + 2) && m.env.cmdOk(k + 3)
    ensures status == 1 ==> m.sent == old(m.sent) + PROLOGUE[..4]
  {
    var ignored;
    status, ignored := PlainCmd(m, 0, C.NO_FLAGS.(none := true), 0, NO_RSP);
    if status == 0 { return; }
    status, ignored := AppCmdSend(m, 55, 0, NO_RSP);
    if status != 1 { return 0; }
    status, ignored := PlainCmd(m, 0, C.NO_FLAGS.(none := true), 0, NO_RSP);
  }

  // Lines 358-384: then voltage check and first ACMD41. CMD8 need not be answered.
  method Identify(m: Mmc, garbage: Rsp) returns (status: nat, rsp: Rsp)
    requires WellFormed(m.store) && m.Idle()
    modifies m`regs, m`sent, m`cmdDue, m`xferDue, m`dmaDue, m`xferGood, m`strayDue, m`strayGood, m`info
    modifies m`cmdCompFlag, m`cmdTimeout, m`xferCompFlag, m`dataTimeout
    ensures m.Idle() && m.info == NO_INFO == CardInfo(false, 0, 0, 0, 0, 0)
    ensures status == 1 <==> Identified(m.env, |old(m.sent)|)
    ensures status == 1 ==> m.sent == old(m.sent) + PROLOGUE && rsp == m.env.response(|old(m.sent)| + 6)
  {
    rsp := garbage;
    m.info := NO_INFO;
    status := CheckCard(m);
    if status != 1 { return 0, rsp; }
    status, rsp := PlainCmd(m, 8, C.NO_FLAGS, CHECK_PATTERN + VOLT_2P7_3P6, rsp);
    status, rsp := AppCmdSend(m, 41, OCR_HIGH_CAPACITY + OCR_VDD_WILDCARD, rsp);
  }

  ghost predicate PolledSoFar(env: Env, s0: seq<Sent>, last: Rsp, answered: seq<bool>, sent: seq<Sent>, rsp: Rsp) {
    && sent == s0 + Polls(answered) && answered == Answers(env, |s0|, last, |answered|)
    && AfterPolls(env, |s0|, last, |answered|) == Polled(|sent|, rsp)
    && forall i :: 1 <= i < |answered| ==> !PoweredUp(AfterPolls(env, |s0|, last, i).rsp.r0)
  }

  lemma OnePoll(env: Env, s0: seq<Sent>, last: Rsp, answered: seq<bool>, before: seq<Sent>, was: Rsp,
                sent: seq<Sent>, rsp: Rsp)
    requires PolledSoFar(env, s0, last, answered, before, was) && (|answered| > 0 ==> !PoweredUp(was.r0))
    requires sent == before + [Sent(55, 0, C.Short)]
                     + (if env.cmdOk(|before|) then [Sent(41, 0x40FF_8000, C.Short)] else [])
    requires rsp == if env.cmdOk(|before|) && env.cmdOk(|before| + 1) then env.response(|before| + 1) else was
    ensures PolledSoFar(env, s0, last, answered + [env.cmdOk(|before|)], sent, rsp)
  {
    var more := answered + [env.cmdOk(|before|)];
    assert more[..|more| - 1] == answered;
    assert Polls(more)
      == Polls(answered) + [Sent(55, 0, C.Short)]
         + (if env.cmdOk(|before|) then [Sent(41, 0x40FF_8000, C.Short)] else []);
  }

  // Lines 386-393: poll ACMD41 until the card reports power-up. The loop gives up after 65536 polls,
  // but then goes on as if the card had powered up; it reports failure only when power-up comes with
  // the very last poll.
  method AwaitPowerUp(m: Mmc, last: Rsp) returns (status: nat, rsp: Rsp, ghost answered: seq<bool>)
    requires WellFormed(m.store) && m.Idle() && m.info == NO_INFO
    modifies m`regs, m`sent, m`cmdDue, m`xferDue, m`dmaDue, m`xferGood, m`strayDue, m`strayGood
    modifies m`cmdCompFlag, m`cmdTimeout, m`xferCompFlag, m`dataTimeout
    ensures m.Idle()
    ensures m.sent == old(m.sent) + Polls(answered) && PollsStop(m.env, |old(m.sent)|, last, |answered|)
    ensures answered == Answers(m.env, |old(m.sent)|, last, |answered|)
    ensures AfterPolls(m.env, |old(m.sent)|, last, |answered|) == Polled(|m.sent|, rsp)
    ensures status == if PoweredUp(rsp.r0) && |answered| == 0x10000 then 0 else 1
  {
    var retry, done := 0xFFFF, false;
    rsp, answered := last, [];
    while !done
      invariant m.Idle() && PolledSoFar(m.env, old(m.sent), last, answered, m.sent, rsp)
      invariant !done ==> 0 <= retry == 0xFFFF - |answered| && (|answered| > 0 ==> !PoweredUp(rsp.r0))
      invariant done ==> 1 <= |answered| <= 0x10000
      invariant done && PoweredUp(rsp.r0) ==> retry == 0x10000 - |answered|
      invariant done && !PoweredUp(rsp.r0) ==> retry == 0xFFFF_FFFF && |answered| == 0x10000
      decreases !done, retry
    {
      ghost var before, was := m.sent, rsp;
      var ignored;
      ignored, rsp := AppCmdSend(m, 41, OCR_HIGH_CAPACITY + OCR_VDD_WILDCARD, rsp);
      OnePoll(m.env, old(m.sent), last, answered, before, was, m.sent, rsp);
      answered := answered + [m.env.cmdOk(|before|)];
      if PoweredUp(rsp.r0) {
        done := true;
      } else if retry == 0 {
        retry := 0xFFFF_FFFF;
        done := true;
      } else {
        retry := retry - 1;
      }
    }
    status := if retry == 0 then 0 else 1;
  }

  // Lines 395-423: identification, relative address and card-specific data
  method Publish(m: Mmc, last: Rsp) returns (status: nat)
    requires WellFormed(m.store) && m.Idle()
    modifies m`regs, m`sent, m`cmdDue, m`xferDue, m`dmaDue, m`xferGood, m`strayDue, m`strayGood, m`info
    modifies m`cmdCompFlag, m`cmdTimeout, m`xferCompFlag, m`dataTimeout
    ensures m.Idle()
    ensures status == 1 <==> Published(m.env, |old(m.sent)|)
    ensures status == 1 ==>
      var k := |old(m.sent)|;
      var r0 := m.env.response(k + 1).r0;
      && m.info == old(m.info).(rca := r0 / 0x1_0000, blkLen := Pow2(m.env.response(k + 2).r2 / 0x1_0000 % 16))
      && m.sent == old(m.sent) + [Sent(2, 0, C.Long), Sent(3, 0, C.Short), Sent(9, m.info.rca * 0x1_0000, C.Long)]
  {
    var rsp;
    status, rsp := PlainCmd(m, 2, C.NO_FLAGS.(long := true), 0, last);
    if status == 0 { return; }
    status, rsp := PlainCmd(m, 3, C.NO_FLAGS, 0, rsp);
    m.info := m.info.(rca := Rca(rsp.r0));
    if status == 0 { return; }
    status, rsp := PlainCmd(m, 9, C.NO_FLAGS.(long := true), m.info.rca * 0x1_0000, rsp);
    if status == 0 { return; }
    m.info := m.info.(blkLen := RdBlkLen(rsp));
  }

  // Whether the end of the busy phase of CMD7, the s-th command, has been reported when the answer to
  // the next command has, and as a success
  predicate BusyOver(env: Env, s: nat) { env.xferDelay(s) <= env.cmdDelay(s + 1) && env.xferOk(s) }

  // Then the data phase decides: it is reported as it ends, save on the last poll, and the data arrives.
  lemma BusyOverDecides(env: Env, s: nat)
    requires BusyOver(env, s) && Timely(env)
    ensures var k, f := s + 2, ScrFlight(env, s);
      && (DataReported(env, k, f) <==> env.cmdOk(k) && env.xferOk(k) && !OnLastPoll(env, k))
      && (DataArrived(env, k, f) <==> env.xferOk(k))
  {
    WaitAlone(ScrFlight(env, s), true, DmaDue(env, s + 2));
  }

  // Nothing but xferCompFlag is left over: what MMCXferSetup clears.
  ghost predicate OnlyCompletion(m: Mmc)
    reads m
  {
    m.Resting() && m.xferDue == -1 && m.strayDue == -1 && !m.dataTimeout
  }

  // Lines 424-444: block length of byte-addressed cards, selection, and the prefix of ACMD51. Nobody
  // waits for the busy phase that selecting the card starts: afterwards its end has been reported or
  // is still to come.
  method Select(m: Mmc) returns (status: nat)
    requires WellFormed(m.store) && m.Idle() && m.info.rca < TWO16
    modifies m`regs, m`sent, m`cmdDue, m`xferDue, m`dmaDue, m`xferGood, m`strayDue, m`strayGood, m`info
    modifies m`cmdCompFlag, m`cmdTimeout, m`xferCompFlag, m`dataTimeout
    ensures m.Resting()
    ensures status == 1 <==> Selected(m.env, |old(m.sent)|, old(m.info.highCap))
    ensures status == 1 ==>
      && m.info == (if m.info.highCap then old(m.info) else old(m.info).(blkLen := 512))
      && m.sent == old(m.sent) + Selection(m.info.rca * 0x1_0000, m.info.highCap)
    ensures status == 1 ==>
      var s := SelectSerial(|old(m.sent)|, old(m.info.highCap));
      && m.xferDue == -1 && m.strayDue == StrayAfter(m.env.xferDelay(s), m.env.cmdDelay(s + 1) + 1)
      && m.strayGood == m.env.xferOk(s)
      && m.xferCompFlag == (m.strayDue == -1 && m.env.xferOk(s))
      && m.dataTimeout == (m.strayDue == -1 && !m.env.xferOk(s))
      && (OnlyCompletion(m) <==> BusyOver(m.env, s))
  {
    var rsp;
    if !m.info.highCap {
      status, rsp := PlainCmd(m, 16, C.NO_FLAGS.(none := true), 512, NO_RSP);
      if status == 0 { return; }
      m.info := m.info.(blkLen := 512);
    }
    status := SelectCard(m);
  }

  // Lines 433-444
  method SelectCard(m: Mmc) returns (status: nat)
    requires WellFormed(m.store) && m.Idle() && m.info.rca < TWO16
    modifies m`regs, m`sent, m`cmdDue, m`xferDue, m`dmaDue, m`xferGood, m`strayDue, m`strayGood
    modifies m`cmdCompFlag, m`cmdTimeout, m`xferCompFlag, m`dataTimeout
    ensures m.Resting()
    ensures var s := |old(m.sent)|;
      status == (if m.env.cmdOk(s) && m.env.cmdOk(s + 1) then 1 else 0)
    ensures status == 1 ==>
      var s := |old(m.sent)|;
      && m.sent == old(m.sent) + [Sent(7, m.info.rca * 0x1_0000, C.ShortBusy), Sent(55, m.info.rca * 0x1_0000, C.Short)]
      && m.xferDue == -1 && m.Strayed(m.env.xferDelay(s), m.env.xferOk(s), m.env.cmdDelay(s + 1) + 1, false, false)
  {
    ghost var r, de := m.regs, m.dmaEnable;
    var cmd := Cmd(7, C.NO_FLAGS.(busy := true), m.info.rca * 0x1_0000, 0, NO_RSP);
    var rsp;
    status, rsp := m.CmdSend(cmd);
    m.BusyStarted(r, cmd, de);
    if status == 0 { return; }
    ghost var r2 := m.regs;
    var app := Cmd(55, C.NO_FLAGS, m.info.rca * 0x1_0000, 0, NO_RSP);
    status, rsp := m.CmdSend(app);
    m.PlainDone(r2, app, de);
  }

  // The data phase that will put the configuration register into the buffer
  ghost predicate ScrInFlight(m: Mmc, dataBuffer: nat)
    requires WellFormed(m.store) && m.sent != [] && |m.env.card.scr| == 8 && dataBuffer + 8 <= |m.store.ram|
    reads m
  {
    && m.regs.cmd.dataPresent && m.regs.cmd.cardToHost
    && m.xferGood == m.env.xferOk(m.Serial()) && m.xferDue == m.env.xferDelay(m.Serial())
    && m.dmaDue == DmaDue(m.env, m.Serial())
    && Moved(m.env.card, m.store, m.regs)
       == Some(m.store.(ram := Splice(m.store.ram, dataBuffer, m.env.card.scr)))
  }

  lemma ScrStarted(m: Mmc, r: Regs, dataBuffer: word, arg: word, rsvd: nat)
    requires WellFormed(m.store) && m.sent != [] && |m.env.card.scr| == 8 && rsvd < TWO16
    requires dataBuffer + 8 <= |m.store.ram| && m.TransferStarted()
    requires m.regs == Issued(SetUp(r, true, dataBuffer, 8, 1, rsvd), 51, READ_FLAGS, arg, 1, true)
    ensures m.env.cmdOk(m.Serial()) ==> ScrInFlight(m, dataBuffer)
    ensures !m.env.cmdOk(m.Serial()) ==> m.xferDue == m.dmaDue == -1
  {
    ScrSequence(m.env.card, m.store, r, arg, dataBuffer, rsvd);
  }

  // Lines 445-452: ACMD51, whose data phase reads the 8-byte configuration register by DMA
  method RequestScr(m: Mmc, dataBuffer: word) returns (status: nat)
    requires WellFormed(m.store) && m.Resting() && m.xferDue == -1 && |m.env.card.scr| == 8
    requires dataBuffer + 8 <= |m.store.ram| && m.info.rca < TWO16
    modifies m
    ensures m.store == old(m.store) && m.info == old(m.info) && m.Waiting() && !m.callbackOccured
    ensures m.sent == old(m.sent) + [Sent(51, old(m.info.rca) * 0x1_0000, C.Short)]
    ensures status == if m.env.cmdOk(|old(m.sent)|) then 1 else 0
    ensures old(OnlyCompletion(m)) && status == 0 ==> m.Idle()
    ensures status == 1 ==>
      && ScrInFlight(m, dataBuffer)
      && m.Now() == Landed(m.env, |old(m.sent)|, old(m.strayDue), old(m.strayGood), old(m.dataTimeout))
  {
    ghost var r, rsvd := m.regs, U16(m.env.rsvd(|m.sent|));
    var arg := m.info.rca * 0x1_0000;
    status := m.StartData(true, dataBuffer, 8, Cmd(51, READ_FLAGS, arg, 1, NO_RSP));
    ScrStarted(m, r, dataBuffer, arg, rsvd);
  }

  // Lines 445-453
  method FetchScr(m: Mmc, dataBuffer: word) returns (status: Option<nat>)
    requires WellFormed(m.store) && m.Resting() && m.xferDue == -1 && |m.env.card.scr| == 8
    requires dataBuffer + 8 <= |m.store.ram| && m.info.rca < TWO16
    modifies m
    ensures m.info == old(m.info) && WellFormed(m.store) && m.store.view == old(m.store).view
    ensures m.store.blocks == old(m.store).blocks && |m.store.ram| == |old(m.store).ram|
    ensures m.sent == old(m.sent) + [Sent(51, old(m.info.rca) * 0x1_0000, C.Short)]
    ensures status == Some(1) ==> !m.dmaEnable
    ensures var k := |old(m.sent)|;
      var f := Landed(m.env, k, old(m.strayDue), old(m.strayGood), old(m.dataTimeout));
      && status == Some(if DataReported(m.env, k, f) then 1 else 0)
      && m.store.ram == (if m.env.cmdOk(k) && DataArrived(m.env, k, f)
                         then Splice(old(m.store).ram, dataBuffer, m.env.card.scr) else old(m.store).ram)
    ensures old(OnlyCompletion(m)) && Timely(m.env) ==> m.Idle()
  {
    var sent := RequestScr(m, dataBuffer);
    if sent == 0 { return Some(0); }
    ghost var f, d, s, r := m.Now(), m.dmaDue, m.store, m.regs;
    status := m.GetXferStatus();
    if old(OnlyCompletion(m)) && Timely(m.env) { WaitedAlone(m, f, d, s, r); }
  }

  // After a wait that was alone with a data phase nothing is in flight.
  lemma WaitedAlone(m: Mmc, f: Flight, d: int, s: Store, r: Regs)
    requires WellFormed(s) && (d >= 0 ==> Moved(m.env.card, s, r).Some?)
    requires f.x >= 0 && f.y == -1 && !f.comp && !f.timeout && d >= -1 && (d >= 0 <==> f.xGood)
    requires d >= 0 ==> Lag(d, f.x) <= 0xFFFF
    requires FirstReport(f).Some? && m.WaitedOut(f, FirstReport(f).value, true, d, s, r)
    ensures m.Idle()
  {
    WaitAlone(f, true, d);
  }

  // Byte i of what the CPU reads in the buffer: the register if it has arrived, or what the memory held
  function SeenScr(env: Env, arrived: bool, ram: seq<byte>, dataBuffer: word, i: nat): nat
    requires dataBuffer + i < |ram| && i < |env.card.scr|
  {
    if arrived then env.card.scr[i] else ram[dataBuffer + i]
  }

  // Lines 445-461. What the CPU reads in the buffer is the register if it has arrived, otherwise what the
  // memory held before.
  method ReadScr(m: Mmc, dataBuffer: word) returns (status: Option<nat>)
    requires WellFormed(m.store) && m.Resting() && m.xferDue == -1 && |m.env.card.scr| == 8
    requires dataBuffer + 128 <= |m.store.ram| && m.info.rca < TWO16
    modifies m
    ensures WellFormed(m.store)
    ensures m.store.blocks == old(m.store).blocks && |m.store.ram| == |old(m.store).ram|
    ensures var k := |old(m.sent)|;
      var f := Landed(m.env, k, old(m.strayDue), old(m.strayGood), old(m.dataTimeout));
      && status == Some(if DataReported(m.env, k, f) then 1 else 0)
      && (status == Some(1) ==>
            var arrived := DataArrived(m.env, k, f);
            m.info == old(m.info).(sdVer := SeenScr(m.env, arrived, old(m.store).ram, dataBuffer, 0) % 16,
                                   busWidth := SeenScr(m.env, arrived, old(m.store).ram, dataBuffer, 1) % 16))
    ensures status == Some(1) ==>
      && m.sent == old(m.sent) + [Sent(51, old(m.info.rca) * 0x1_0000, C.Short)] && !m.dmaEnable
      && m.store.view == Splice(old(m.store).view, dataBuffer, m.store.ram[dataBuffer..dataBuffer + 128])
    ensures old(OnlyCompletion(m)) && Timely(m.env) ==> m.Idle()
  {
    status := FetchScr(m, dataBuffer);
    if status != Some(1) { return; }
    ghost var ram := m.store.ram;
    assert Splice(ram, dataBuffer, ram[dataBuffer..dataBuffer + 8]) == ram;
    SeenByCpu(m.store, dataBuffer, ram[dataBuffer..dataBuffer + 8]);
    m.FlushBuff(dataBuffer, 128);
    m.info := m.info.(sdVer := m.store.view[dataBuffer] % 16, busWidth := m.store.view[dataBuffer + 1] % 16);
  }

  lemma SeenByCpu(s: Store, a: nat, data: seq<byte>)
    requires WellFormed(s) && |data| == 8 && a + 128 <= |s.ram|
    ensures var t := Invalidated(s.(ram := Splice(s.ram, a, data)), a, 128);
      t.view[a] == data[0] && t.view[a + 1] == data[1]
  {
    var ram := Splice(s.ram, a, data);
    var t := Invalidated(s.(ram := ram), a, 128);
    assert ram[a..a + 8][0] == data[0] && ram[a..a + 8][1] == data[1];
    assert t.view[a..a + 128][0] == ram[a..a + 128][0] && t.view[a..a + 128][1] == ram[a..a + 128][1];
  }

  // The trace of a successful initialisation of a card that has answered CMD3 with r0
  function InitTrace(answered: seq<bool>, r0: word, highCap: bool): seq<Sent> {
    PROLOGUE + Polls(answered) + Epilogue(r0, highCap)
  }

  // Lines 424-461
  method SelectAndRead(m: Mmc, dataBuffer: word) returns (status: Option<nat>)
    requires WellFormed(m.store) && m.Idle() && |m.env.card.scr| == 8 && m.info.rca < TWO16
    requires dataBuffer + 128 <= |m.store.ram|
    modifies m
    ensures WellFormed(m.store)
    ensures m.store.blocks == old(m.store).blocks && |m.store.ram| == |old(m.store).ram|
    ensures var k, high := |old(m.sent)|, old(m.info.highCap);
      && status == Some(if Selected(m.env, k, high) && ScrReported(m.env, k, high) then 1 else 0)
      && (status == Some(1) ==>
            var arrived := ScrArrives(m.env, k, high);
            && m.info.sdVer == SeenScr(m.env, arrived, old(m.store).ram, dataBuffer, 0) % 16
            && m.info.busWidth == SeenScr(m.env, arrived, old(m.store).ram, dataBuffer, 1) % 16)
      && (status == Some(1) && BusyOver(m.env, SelectSerial(k, high)) && Timely(m.env) ==> m.Idle())
    ensures status == Some(1) ==>
      && m.info == old(m.info).(blkLen := m.info.blkLen, sdVer := m.info.sdVer, busWidth := m.info.busWidth)
      && (!m.info.highCap ==> m.info.blkLen == 512) && !m.dmaEnable
      && m.sent == old(m.sent)
                   + (Selection(m.info.rca * 0x1_0000, m.info.highCap) + [Sent(51, m.info.rca * 0x1_0000, C.Short)])
  {
    var step := Select(m);
    if step != 1 { return Some(0); }
    status := ReadScr(m, dataBuffer);
  }

  // Lines 394-461, once the card has powered up; p is where the polls have led.
  method SetUpCard(m: Mmc, last: Rsp, dataBuffer: word, ghost p: Polled) returns (status: Option<nat>)
    requires WellFormed(m.store) && m.Idle() && |m.env.card.scr| == 8 && p == Polled(|m.sent|, last)
    requires dataBuffer + 128 <= |m.store.ram|
    modifies m
    ensures WellFormed(m.store)
    ensures m.store.blocks == old(m.store).blocks && |m.store.ram| == |old(m.store).ram|
    ensures status == Some(if SetUpSucceeds(m.env, p.serial, HighCapacity(p.rsp.r0)) then 1 else 0)
    ensures status == Some(1) ==>
      var arrived := ScrArrives(m.env, p.serial + 3, HighCapacity(p.rsp.r0));
      && m.info.sdVer == SeenScr(m.env, arrived, old(m.store).ram, dataBuffer, 0) % 16
      && m.info.busWidth == SeenScr(m.env, arrived, old(m.store).ram, dataBuffer, 1) % 16
    ensures status == Some(1) ==>
      var r0 := m.env.response(p.serial + 1).r0;
      && m.sent == old(m.sent) + Epilogue(r0, m.info.highCap) && m.info.rca == r0 / 0x1_0000
      && m.info.ocr == p.rsp.r0 && m.info.highCap == (m.info.ocr / 0x4000_0000 % 2 == 1)
      && (!m.info.highCap ==> m.info.blkLen == 512) && !m.dmaEnable
    ensures status == Some(1) && BusyOver(m.env, SelectSerial(p.serial + 3, HighCapacity(p.rsp.r0))) ==>
      Timely(m.env) ==> m.Idle()
  {
    m.info := m.info.(ocr := last.r0, highCap := HighCapacity(last.r0));
    var step := Publish(m, last);
    if step != 1 { return Some(0); }
    assert |m.sent| == p.serial + 3;
    status := SelectAndRead(m, dataBuffer);
    if status == Some(1) {
      SetUpTrace(old(m.sent), m.sent, m.env.response(p.serial + 1).r0, m.info.rca, m.info.highCap);
    }
  }

  lemma SetUpTrace(s0: seq<Sent>, t: seq<Sent>, r0: word, rca: nat, highCap: bool)
    requires rca == r0 / 0x1_0000
    requires t == s0 + [Sent(2, 0, C.Long), Sent(3, 0, C.Short), Sent(9, rca * 0x1_0000, C.Long)]
                  + (Selection(rca * 0x1_0000, highCap) + [Sent(51, rca * 0x1_0000, C.Short)])
    ensures t == s0 + Epilogue(r0, highCap)
  {
    assert rca * 0x1_0000 == Addressing(r0);
    assert Addressing(Addressing(r0)) == Addressing(r0);
  }

  // Lines 358-393
  method PowerUp(m: Mmc, garbage: Rsp) returns (status: nat, rsp: Rsp, ghost answered: seq<bool>, ghost p: Polled)
    requires WellFormed(m.store) && m.Idle()
    modifies m`regs, m`sent, m`cmdDue, m`xferDue, m`dmaDue, m`xferGood, m`strayDue, m`strayGood, m`info
    modifies m`cmdCompFlag, m`cmdTimeout, m`xferCompFlag, m`dataTimeout
    ensures m.Idle()
    ensures Identified(m.env, |old(m.sent)|) ==>
      && PollsStop(m.env, |old(m.sent)| + 7, m.env.response(|old(m.sent)| + 6), |answered|)
      && answered == Answers(m.env, |old(m.sent)| + 7, m.env.response(|old(m.sent)| + 6), |answered|)
      && p == Ready(m.env, |old(m.sent)|, |answered|)
    ensures status == 1 <==> Identified(m.env, |old(m.sent)|) && !(PoweredUp(p.rsp.r0) && |answered| == 0x10000)
    ensures status == 1 ==>
      m.sent == old(m.sent) + PROLOGUE + Polls(answered) && p == Polled(|m.sent|, rsp)
    ensures status <= 1
  {
    answered, p := [], Polled(0, garbage);
    status, rsp := Identify(m, garbage);
    if status != 1 { return 0, rsp, answered, p; }
    assert |m.sent| == |old(m.sent)| + 7;
    status, rsp, answered := AwaitPowerUp(m, rsp);
    p := Ready(m.env, |old(m.sent)|, |answered|);
  }

  // MMCCardInit. What it has sent when it succeeds is the trace of the identification flow. The outcome is
  // decided by the hardware alone: with the busy phase of CMD7 still going on, its end may be taken for
  // that of the data phase, and the version and width then come from stale memory.
  method CardInit(m: Mmc, dataBuffer: word, garbage: Rsp)
      returns (status: Option<nat>, ghost answered: seq<bool>, ghost p: Polled)
    requires WellFormed(m.store) && m.Idle() && |m.env.card.scr| == 8
    requires dataBuffer + 128 <= |m.store.ram|
    modifies m
    ensures WellFormed(m.store)
    ensures m.store.blocks == old(m.store).blocks && |m.store.ram| == |old(m.store).ram|
    ensures Identified(m.env, |old(m.sent)|) ==>
      && PollsStop(m.env, |old(m.sent)| + 7, m.env.response(|old(m.sent)| + 6), |answered|)
      && answered == Answers(m.env, |old(m.sent)| + 7, m.env.response(|old(m.sent)| + 6), |answered|)
      && p == Ready(m.env, |old(m.sent)|, |answered|)
    ensures status == Some(if InitSucceeds(m.env, |old(m.sent)|, |answered|, p) then 1 else 0)
    ensures status == Some(1) ==>
      var arrived := ScrArrives(m.env, p.serial + 3, HighCapacity(p.rsp.r0));
      && m.info.sdVer == SeenScr(m.env, arrived, old(m.store).ram, dataBuffer, 0) % 16
      && m.info.busWidth == SeenScr(m.env, arrived, old(m.store).ram, dataBuffer, 1) % 16
    ensures status == Some(1) && BusyOver(m.env, SelectSerial(p.serial + 3, HighCapacity(p.rsp.r0))) ==>
      Timely(m.env) ==> m.Idle()
    ensures status == Some(1) ==>
      var r0 := m.env.response(p.serial + 1).r0;
      && m.sent == old(m.sent) + InitTrace(answered, r0, m.info.highCap) && m.info.rca == r0 / 0x1_0000
      && m.info.ocr == p.rsp.r0 && m.info.highCap == (m.info.ocr / 0x4000_0000 % 2 == 1)
      && (!m.info.highCap ==> m.info.blkLen == 512) && !m.dmaEnable
  {
    var step, rsp;
    step, rsp, answered, p := PowerUp(m, garbage);
    if step == 0 { return Some(0), answered, p; }
    status := SetUpCard(m, rsp, dataBuffer, p);
    if status == Some(1) {
      Joined(old(m.sent), m.sent, answered, m.env.response(p.serial + 1).r0, m.info.highCap);
    }
  }

  lemma Joined(s: seq<Sent>, t: seq<Sent>, answered: seq<bool>, r0: word, highCap: bool)
    requires t == s + PROLOGUE + Polls(answered) + Epilogue(r0, highCap)
    ensures t == s + InitTrace(answered, r0, highCap)
  {
  }

  // Every poll consists of CMD55 and, at most, CMD41.
  lemma {:induction false} PollsAreOther(answered: seq<bool>)
    ensures forall i :: 0 <= i < |Polls(answered)| ==> Polls(answered)[i].idx == 55 || Polls(answered)[i].idx == 41
  {
    if answered != [] { PollsAreOther(answered[..|answered| - 1]); }
  }

  // From command k on every command has been answered, except CMD8, CMD41 and CMD55.
  predicate Answered(env: Env, k: nat, sent: seq<Sent>) {
    forall i :: k <= i < |sent| && sent[i].idx in {0, 2, 3, 7, 9, 16, 51} ==> env.cmdOk(i)
  }

  lemma {:induction false} PollSerial(env: Env, k: nat, last: Rsp, n: nat)
    ensures AfterPolls(env, k, last, n).serial == k + |Polls(Answers(env, k, last, n))|
  {
    if n > 0 {
      PollSerial(env, k, last, n - 1);
      assert Answers(env, k, last, n)[..n - 1] == Answers(env, k, last, n - 1);
    }
  }

  predicate AllNeeded(env: Env, k: nat, serial: nat, high: bool) {
    && Identified(env, k) && Published(env, serial) && Selected(env, serial + 3, high)
    && env.cmdOk(SelectSerial(serial + 3, high) + 2)
  }

  lemma SuccessNeedsAll(env: Env, k: nat, polls: nat, p: Polled)
    requires InitSucceeds(env, k, polls, p)
    ensures AllNeeded(env, k, p.serial, HighCapacity(p.rsp.r0))
  {
  }

  // A successful initialisation has had every command of its trace answered, but for CMD8 and the polls.
  lemma AllAnswered(env: Env, s: seq<Sent>, answered: seq<bool>, serial: nat, high: bool)
    requires AllNeeded(env, |s|, serial, high)
    requires answered == Answers(env, |s| + 7, env.response(|s| + 6), |answered|)
    requires serial == AfterPolls(env, |s| + 7, env.response(|s| + 6), |answered|).serial
    ensures Answered(env, |s|, s + InitTrace(answered, env.response(serial + 1).r0, high))
  {
    PollSerial(env, |s| + 7, env.response(|s| + 6), |answered|);
    TraceAnswered(env, s, answered, serial, env.response(serial + 1).r0, high);
  }

  lemma PrologueAnswered(env: Env, k: nat)
    requires Identified(env, k)
    ensures forall j :: 0 <= j < 7 && PROLOGUE[j].idx in {0, 2, 3, 7, 9, 16, 51} ==> env.cmdOk(k + j)
  {
  }

  lemma EpilogueAnswered(env: Env, k: nat, serial: nat, r0: word, high: bool)
    requires AllNeeded(env, k, serial, high)
    ensures forall i :: serial <= i < serial + |Epilogue(r0, high)| ==> env.cmdOk(i)
  {
  }

  lemma TraceAnswered(env: Env, s: seq<Sent>, answered: seq<bool>, serial: nat, r0: word, high: bool)
    requires AllNeeded(env, |s|, serial, high) && serial == |s| + 7 + |Polls(answered)|
    ensures Answered(env, |s|, s + InitTrace(answered, r0, high))
  {
    PollsAreOther(answered);
    PrologueAnswered(env, |s|);
    EpilogueAnswered(env, |s|, serial, r0, high);
    PartsAnswered(env, s, PROLOGUE, Polls(answered), Epilogue(r0, high));
  }

  lemma PartsAnswered(env: Env, s: seq<Sent>, u: seq<Sent>, v: seq<Sent>, w: seq<Sent>)
    requires forall j :: 0 <= j < |u| && u[j].idx in {0, 2, 3, 7, 9, 16, 51} ==> env.cmdOk(|s| + j)
    requires forall j :: 0 <= j < |v| ==> v[j].idx == 55 || v[j].idx == 41
    requires forall i :: |s| + |u| + |v| <= i < |s| + |u| + |v| + |w| ==> env.cmdOk(i)
    ensures Answered(env, |s|, s + (u + v + w))
  {
    var t := s + (u + v + w);
    forall i | |s| <= i < |t| ensures t[i].idx in {0, 2, 3, 7, 9, 16, 51} ==> env.cmdOk(i) {
      var j := i - |s|;
      if j < |u| {
        assert t[i] == u[j];
      } else if j < |u| + |v| {
        assert t[i] == v[j - |u|];
      }
    }
  }

  // A card of standard capacity that answers at once, every time with the same words: powered up, relative
  // address 0x9234, blocks of 512 bytes; version 2, bus width 5
  function Prompt(): Env {
    Env(Card(false, [0x32, 0x45, 0, 0, 0, 0, 0, 0]), k => 0, k => true, k => Rsp(0x9234_0500, 0, 0x9_0000, 0),
        k => 0, k => true, k => 0, k => 0)
  }

  lemma PromptRun()
    ensures forall n :: PollsStop(Prompt(), 7, Prompt().response(6), n) ==> n == 1
    ensures Ready(Prompt(), 0, 1) == Polled(9, Prompt().response(8))
    ensures Answers(Prompt(), 7, Prompt().response(6), 1) == [true]
    ensures InitSucceeds(Prompt(), 0, 1, Ready(Prompt(), 0, 1)) && ScrArrives(Prompt(), 12, false)
  {
    var env := Prompt();
    assert AfterPolls(env, 7, env.response(6), 0) == Polled(7, env.response(6));
    assert AfterPolls(env, 7, env.response(6), 1) == Polled(9, env.response(8));
    assert Answers(env, 7, env.response(6), 0) == [];
    assert !HighCapacity(0x9234_0500) && PoweredUp(0x9234_0500);
    assert ScrFlight(env, 13) == Flight(0, true, -1, true, false, false);
  }

  lemma PromptTrace()
    ensures InitTrace([true], 0x9234_0500, false) == [
      Sent(0, 0, C.NoResponse), Sent(55, 0, C.Short), Sent(55, 0, C.Short), Sent(0, 0, C.NoResponse),
      Sent(8, 0x1AA, C.Short), Sent(55, 0, C.Short), Sent(41, 0x40FF_8000, C.Short),
      Sent(55, 0, C.Short), Sent(41, 0x40FF_8000, C.Short),
      Sent(2, 0, C.Long), Sent(3, 0, C.Short), Sent(9, 0x9234_0000, C.Long), Sent(16, 512, C.NoResponse),
      Sent(7, 0x9234_0000, C.ShortBusy), Sent(55, 0x9234_0000, C.Short), Sent(51, 0x9234_0000, C.Short)]
  {
    assert [true][..0] == [] && Polls([]) == [];
    assert Polls([true]) == [Sent(55, 0, C.Short), Sent(41, 0x40FF_8000, C.Short)];
    assert Addressing(0x9234_0500) == 0x9234_0000;
  }

  // Every command that this initialisation sends, and what the driver then knows of the card
  method PromptCard(regs: Regs, garbage: Rsp) returns (m: Mmc, status: Option<nat>)
    ensures m.env == Prompt() && status == Some(1)
    ensures m.sent == InitTrace([true], 0x9234_0500, false)
    ensures m.info == CardInfo(false, 512, 0x9234, 0x9234_0500, 2, 5)
  {
    var zeros := seq<byte>(128, i => 0);
    m := new Mmc(Prompt(), Store(zeros, zeros, []), regs);
    PromptRun();
    ghost var answered, p;
    status, answered, p := CardInit(m, 0, garbage);
  }

  // A card whose busy phase after CMD7, its 13th command, lasts longer than the answers to the next two, and
  // whose data phases fail
  function Sluggish(): Env {
    Env(Card(true, seq<byte>(8, i => 2)), k => 0, k => true, k => Rsp(0xC000_0000, 0, 0, 0),
        k => if k == 12 then 5 else 100, k => k == 12, k => 0, k => 0)
  }

  lemma SluggishRun()
    ensures forall n :: PollsStop(Sluggish(), 7, Sluggish().response(6), n) ==> n == 1
    ensures Ready(Sluggish(), 0, 1) == Polled(9, Sluggish().response(8))
    ensures InitSucceeds(Sluggish(), 0, 1, Ready(Sluggish(), 0, 1)) && !ScrArrives(Sluggish(), 12, true)
  {
    var env := Sluggish();
    assert AfterPolls(env, 7, env.response(6), 0) == Polled(7, env.response(6));
    assert AfterPolls(env, 7, env.response(6), 1) == Polled(9, env.response(8));
    assert HighCapacity(0xC000_0000) && PoweredUp(0xC000_0000);
    assert ScrFlight(env, 12) == Flight(100, false, 3, true, false, false);
  }

  // Initialisation reports success although the data phase of ACMD51 fails, and version and width are those
  // of the memory.
  method StaleRegister(regs: Regs, garbage: Rsp) returns (m: Mmc, status: Option<nat>)
    ensures m.env == Sluggish() && !m.env.xferOk(14) && m.env.card.scr == seq<byte>(8, i => 2)
    ensures status == Some(1) && m.info.sdVer == 0 == m.info.busWidth
  {
    var zeros := seq<byte>(128, i => 0);
    m := new Mmc(Sluggish(), Store(zeros, zeros, []), regs);
    SluggishRun();
    ghost var answered, p;
    status, answered, p := CardInit(m, 0, garbage);
    assert |answered| == 1;
  }

  // A write and a read of the same blocks by a driver that knows the card's addressing mode
  method BothCalls(m: Mmc, p: word, q: word, block: word, n: word) returns (w: Option<nat>, r: Option<nat>)
    requires WellFormed(m.store) && m.Idle() && Timely(m.env)
    requires p + BLOCK * n <= |m.store.ram| && q + BLOCK * n <= |m.store.ram|
    requires m.info.highCap == m.env.card.highCap && (!m.info.highCap ==> m.info.blkLen == BLOCK)
    modifies m
    ensures WellFormed(m.store) && m.Idle()
    ensures w == old(m.Outcome(|m.sent|, m.Address(block), n))
    ensures w == Some(1) ==> r == old(m.Outcome(|m.sent| + (if n > 1 then 2 else 1), m.Address(block), n))
    ensures w == Some(1) && r == Some(1) ==>
      var first := FirstBlock(m.env.card, AddressOf(m.env.card, block));
      && first.Some? && first.value + U16(n) <= |old(m.store).blocks|
      && m.store == ReadEffect(WriteEffect(old(m.store), p, first.value, n), q, first.value, n)
  {
    w := m.WriteCmdSend(p, block, n);
    if w == None { return None, None; }
    r := m.ReadCmdSend(q, block, n);
  }

  method WriteThenRead(m: Mmc, p: word, q: word, block: word, n: word) returns (w: Option<nat>, r: Option<nat>)
    requires WellFormed(m.store) && m.Idle() && Timely(m.env)
    requires p + BLOCK * n <= |m.store.ram| && q + BLOCK * n <= |m.store.ram|
    requires m.info.highCap == m.env.card.highCap && (!m.info.highCap ==> m.info.blkLen == BLOCK)
    modifies m
    ensures WellFormed(m.store) && m.Idle()
    ensures w == old(m.Outcome(|m.sent|, m.Address(block), n))
    ensures w == Some(1) ==> r == old(m.Outcome(|m.sent| + (if n > 1 then 2 else 1), m.Address(block), n))
    ensures w == Some(1) && r == Some(1) ==>
      var first := FirstBlock(m.env.card, AddressOf(m.env.card, block));
      && first.Some? && first.value + U16(n) <= |old(m.store).blocks|
      && m.store == ReadEffect(WriteEffect(old(m.store), p, first.value, n), q, first.value, n)
    ensures w == Some(1) && r == Some(1) && n <= 0xFFFF && (m.env.card.highCap || block * BLOCK < TWO32) ==>
      && m.store.view == Splice(old(m.store).view, q, old(m.store).view[p..p + BLOCK * n])
      && block + n <= |old(m.store).blocks| == |m.store.blocks|
      && (forall i :: 0 <= i < |m.store.blocks| && !(block <= i < block + n) ==>
            m.store.blocks[i] == old(m.store).blocks[i])
  {
    w, r := BothCalls(m, p, q, block, n);
    if w == Some(1) && r == Some(1) && n <= 0xFFFF && (m.env.card.highCap || block * BLOCK < TWO32) {
      AddressesBlock(m.env.card, block);
      ReadAfterWrite(old(m.store), p, q, block, n);
    }
  }

  // A card that answers everything at once
  function Obliging(): Env {
    Env(Card(true, []), k => 0, k => true, k => NO_RSP, k => 0, k => true, k => 0, k => 0)
  }

  // With more than 65535 blocks both calls can report success although the buffer read back differs
  // from the buffer written; if the count is a multiple of 65536 the card does nothing and they fail.
  method LongTransfer(n: word, regs: Regs) returns (m: Mmc, w: Option<nat>, r: Option<nat>)
    requires 0xFFFF < n && 2 * BLOCK * n <= TWO32
    ensures U16(n) >= 1 ==>
      && w == Some(1) && r == Some(1) && |m.store.view| == 2 * BLOCK * n
      && m.store.view[BLOCK * n..2 * BLOCK * n] != Halved(n).view[..BLOCK * n]
    ensures U16(n) == 0 ==> w == Some(0)
  {
    m := new Mmc(Obliging(), Halved(n), regs);
    m.info := m.info.(highCap := true);
    w, r := WriteThenRead(m, 0, BLOCK * n, 0, n);
    if U16(n) >= 1 { LongTransferLosesData(n); }
  }
}
