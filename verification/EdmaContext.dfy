// Saving and restoring the EDMA channel controller across a loss of power.
module EdmaContext {
  import opened BitWords

  const CHANNELS: nat := 64
  const QNUM_WORDS: nat := 8
  const PARAM_SETS: nat := 256  // maxPar, for the revision DMAVersionGet reports
  const PARAM_WORDS: nat := 8

  datatype Regs = Regs(
    dchmap: seq<Bits>, dmaqnum: seq<Bits>, drae: Bits, draeh: Bits,
    eer: Bits, eerh: Bits, ier: Bits, ierh: Bits, param: seq<seq<Bits>>)

  // struct edmaContext
  datatype Context = Context(
    dchMap: seq<Bits>, dmaQNum: seq<Bits>, regAccLow: Bits, regAccHigh: Bits,
    evtSetLow: Bits, evtSetHigh: Bits, evtLow: Bits, evtHigh: Bits, intLow: Bits, intHigh: Bits, par: seq<seq<Bits>>)

  ghost predicate Shaped(r: Regs) {
    && |r.dchmap| == 64 && |r.dmaqnum| == 8 && |r.param| == 256
    && forall i :: 0 <= i < 256 ==> |r.param[i]| == 8
  }

  ghost predicate Complete(c: Context) {
    && |c.dchMap| == CHANNELS && |c.dmaQNum| == QNUM_WORDS && |c.par| >= PARAM_SETS
    && forall i :: 0 <= i < |c.par| ==> |c.par[i]| == PARAM_WORDS
  }

  // What DMAContextRestore leaves: the enables are written through set registers, which only add bits.
  function Restored(r: Regs, c: Context): Regs
    requires Complete(c)
  {
    Regs(c.dchMap, c.dmaQNum, c.regAccLow, c.regAccHigh,
         Or(r.eer, c.evtLow), Or(r.eerh, c.evtHigh), Or(r.ier, c.intLow), Or(r.ierh, c.intHigh),
         c.par[..PARAM_SETS])
  }

  predicate Within(a: Bits, b: Bits) {
    forall i :: 0 <= i < 32 ==> a[i] ==> b[i]
  }

  lemma OrWithin(a: Bits, b: Bits)
    ensures Or(a, b) == b <==> Within(a, b)
  {
    if Or(a, b) == b {
      forall i | 0 <= i < 32 ensures a[i] ==> b[i] {
        assert Or(a, b)[i] == b[i];
      }
    }
  }

  ghost predicate EnablesWithin(r: Regs, saved: Regs) {
    && Within(r.eer, saved.eer) && Within(r.eerh, saved.eerh)
    && Within(r.ier, saved.ier) && Within(r.ierh, saved.ierh)
  }

  // The context of a controller, restored onto any other, gives the first one back exactly when the
  // other had no event or interrupt enabled that the first had not; in particular after a reset.
  lemma RestoreUndoesSave(saved: Regs, r: Regs, c: Context)
    requires Shaped(saved) && Complete(c)
    requires c.dchMap == saved.dchmap && c.dmaQNum == saved.dmaqnum
    requires c.regAccLow == saved.drae && c.regAccHigh == saved.draeh
    requires c.evtLow == saved.eer && c.evtHigh == saved.eerh && c.intLow == saved.ier && c.intHigh == saved.ierh
    requires c.par[..PARAM_SETS] == saved.param
    ensures Restored(r, c) == saved <==> EnablesWithin(r, saved)
  {
    OrWithin(r.eer, saved.eer);
    OrWithin(r.eerh, saved.eerh);
    OrWithin(r.ier, saved.ier);
    OrWithin(r.ierh, saved.ierh);
  }

  // ---- The event set registers ----

  // A transfer request: the channel, and the parameter set it was started with
  datatype Trigger = Trigger(channel: nat, param: seq<Bits>)

  // The parameter set a DCHMAP register names in its bits from 5 on
  function PaEntry(w: Bits): (n: nat)
    ensures n < PARAM_SETS
  {
    Bit(w[5], 1) + Bit(w[6], 2) + Bit(w[7], 4) + Bit(w[8], 8)
    + Bit(w[9], 16) + Bit(w[10], 32) + Bit(w[11], 64) + Bit(w[12], 128)
  }

  function Bit(on: bool, weight: nat): nat { if on then weight else 0 }

  // Each of the eight bits from bit 5 on counts with its weight, and no other bit does.
  lemma PaEntryBits()
    ensures PaEntry(Shl(One(), 5)) == 1 && PaEntry(Shl(One(), 6)) == 2 && PaEntry(Shl(One(), 7)) == 4
    ensures PaEntry(Shl(One(), 8)) == 8 && PaEntry(Shl(One(), 9)) == 16 && PaEntry(Shl(One(), 10)) == 32
    ensures PaEntry(Shl(One(), 11)) == 64 && PaEntry(Shl(One(), 12)) == 128
    ensures forall i: nat :: i < 5 || 12 < i < 32 ==> PaEntry(Shl(One(), i)) == 0
    ensures PaEntry(All()) == 255
  {
  }

  // What writing v to an event set register starts: one request for each set bit, with whatever the
  // channel's parameter set holds at that moment
  function Triggered(dchmap: seq<Bits>, param: seq<seq<Bits>>, v: Bits, base: nat, n: nat): (t: seq<Trigger>)
    requires |dchmap| == CHANNELS && |param| == PARAM_SETS && n <= 32 && base + 32 <= CHANNELS
  {
    if n == 0 then []
    else
      Triggered(dchmap, param, v, base, n - 1)
      + (if v[n - 1] then [Trigger(base + n - 1, param[PaEntry(dchmap[base + n - 1])])] else [])
  }

  // Exactly the channels of the set bits make a request, each with its own parameter set.
  lemma {:induction false} TriggersAre(dchmap: seq<Bits>, param: seq<seq<Bits>>, v: Bits, base: nat, n: nat, ch: nat)
    requires |dchmap| == CHANNELS && |param| == PARAM_SETS && n <= 32 && base + 32 <= CHANNELS && ch < CHANNELS
    ensures Trigger(ch, param[PaEntry(dchmap[ch])]) in Triggered(dchmap, param, v, base, n)
      <==> base <= ch < base + n && v[ch - base]
    ensures forall t :: t in Triggered(dchmap, param, v, base, n) && t.channel == ch ==>
      t.param == param[PaEntry(dchmap[ch])]
  {
    if n > 0 {
      TriggersAre(dchmap, param, v, base, n - 1, ch);
    }
  }

  // The parameter set of a channel already holds its saved contents.
  predicate Ready(dchmap: seq<Bits>, now: seq<seq<Bits>>, saved: seq<seq<Bits>>, ch: nat)
    requires |dchmap| == CHANNELS && |now| == |saved| == PARAM_SETS && ch < CHANNELS
  {
    now[PaEntry(dchmap[ch])] == saved[PaEntry(dchmap[ch])]
  }

  // The requests that writing the saved event set register makes are the ones the saved controller would
  // have made exactly if the parameter sets of the channels concerned already hold their saved contents:
  // the event set registers are written before the parameter sets.
  lemma {:induction false} TriggersStale(dchmap: seq<Bits>, now: seq<seq<Bits>>, saved: seq<seq<Bits>>, v: Bits,
                                         base: nat, n: nat)
    requires |dchmap| == CHANNELS && |now| == |saved| == PARAM_SETS && n <= 32 && base + 32 <= CHANNELS
    ensures |Triggered(dchmap, now, v, base, n)| == |Triggered(dchmap, saved, v, base, n)|
    ensures Triggered(dchmap, now, v, base, n) == Triggered(dchmap, saved, v, base, n)
      <==> forall i :: 0 <= i < n && v[i] ==> Ready(dchmap, now, saved, base + i)
  {
    if n > 0 {
      TriggersStale(dchmap, now, saved, v, base, n - 1);
      var s, t := Triggered(dchmap, now, v, base, n - 1), Triggered(dchmap, saved, v, base, n - 1);
      if v[n - 1] {
        var k := PaEntry(dchmap[base + n - 1]);
        SnocSame(s, t, Trigger(base + n - 1, now[k]), Trigger(base + n - 1, saved[k]));
        assert Ready(dchmap, now, saved, base + n - 1) <==> now[k] == saved[k];
      } else {
        assert s + [] == s && t + [] == t;
      }
      ForOneMore(dchmap, now, saved, v, base, n - 1);
    }
  }

  lemma ForOneMore(dchmap: seq<Bits>, now: seq<seq<Bits>>, saved: seq<seq<Bits>>, v: Bits, base: nat, n: nat)
    requires |dchmap| == CHANNELS && |now| == |saved| == PARAM_SETS && n < 32 && base + 32 <= CHANNELS
    ensures (forall i :: 0 <= i < n + 1 && v[i] ==> Ready(dchmap, now, saved, base + i))
      <==> (forall i :: 0 <= i < n && v[i] ==> Ready(dchmap, now, saved, base + i))
           && (v[n] ==> Ready(dchmap, now, saved, base + n))
  {
  }

  lemma SnocSame<T>(s: seq<T>, t: seq<T>, x: T, y: T)
    requires |s| == |t|
    ensures s + [x] == t + [y] <==> s == t && x == y
  {
    if s + [x] == t + [y] {
      assert s == (s + [x])[..|s|] == (t + [y])[..|t|] == t;
      assert x == (s + [x])[|s|] == y;
    }
  }

  lemma PutOne<T>(entry: seq<T>, was: seq<T>, i: nat)
    requires |entry| == |was| && i < |entry|
    ensures (entry[..i] + was[i..])[i := entry[i]] == entry[..i + 1] + was[i + 1..]
  {
  }

  class Controller {
    var regs: Regs
    // events set and not yet turned into transfer requests, and the requests made so far
    var esr: Bits
    var esrh: Bits
    var triggered: seq<Trigger>

    constructor (regs: Regs, esr: Bits, esrh: Bits)
      ensures this.regs == regs && this.esr == esr && this.esrh == esrh && triggered == []
    {
      this.regs, this.esr, this.esrh, triggered := regs, esr, esrh, [];
    }

    // A write to ESR (base 0) or ESRH (base 32) starts the events of its one bits at once.
    method WriteEsr(v: Bits, base: nat)
      requires Shaped(regs) && base + 32 <= CHANNELS
      modifies this`triggered
      ensures triggered == old(triggered) + Triggered(regs.dchmap, regs.param, v, base, 32)
    {
      for i := 0 to 32
        invariant triggered == old(triggered) + Triggered(regs.dchmap, regs.param, v, base, i)
      {
        if v[i] {
          triggered := triggered + [Trigger(base + i, regs.param[PaEntry(regs.dchmap[base + i])])];
        }
      }
    }

    // DMAGetPaRAM
    method GetPaRam(id: nat) returns (entry: seq<Bits>)
      requires Shaped(regs) && id < PARAM_SETS
      ensures entry == regs.param[id]
    {
      entry := [];
      for i := 0 to PARAM_WORDS
        invariant entry == regs.param[id][..i]
      {
        entry := entry + [regs.param[id][i]];
      }
    }

    // DMASetPaRAM
    method SetPaRam(id: nat, entry: seq<Bits>)
      requires Shaped(regs) && id < PARAM_SETS && |entry| == PARAM_WORDS
      modifies this`regs
      ensures regs == old(regs).(param := old(regs).param[id := entry])
    {
      assert entry[..0] + old(regs).param[id][0..] == old(regs).param[id];
      for i := 0 to PARAM_WORDS
        invariant regs == old(regs).(param := old(regs).param[id := entry[..i] + old(regs).param[id][i..]])
      {
        PutOne(entry, old(regs).param[id], i);
        regs := regs.(param := regs.param[id := regs.param[id][i := entry[i]]]);
      }
      assert entry[..PARAM_WORDS] + old(regs).param[id][PARAM_WORDS..] == entry;
    }

    // DMAContextSave
    method ContextSave() returns (c: Context)
      requires Shaped(regs)
      ensures Complete(c)
      ensures c.dchMap == regs.dchmap && c.dmaQNum == regs.dmaqnum
      ensures c.regAccLow == regs.drae && c.regAccHigh == regs.draeh
      ensures c.evtSetLow == esr && c.evtSetHigh == esrh
      ensures c.evtLow == regs.eer && c.evtHigh == regs.eerh && c.intLow == regs.ier && c.intHigh == regs.ierh
      ensures c.par[..PARAM_SETS] == regs.param
    {
      var dchMap, dmaQNum, par := [], [], [];
      for i := 0 to CHANNELS
        invariant dchMap == regs.dchmap[..i]
      {
        dchMap := dchMap + [regs.dchmap[i]];
      }
      for i := 0 to QNUM_WORDS
        invariant dmaQNum == regs.dmaqnum[..i]
      {
        dmaQNum := dmaQNum + [regs.dmaqnum[i]];
      }
      for i := 0 to PARAM_SETS
        invariant par == regs.param[..i]
      {
        var entry := GetPaRam(i);
        par := par + [entry];
      }
      c := Context(dchMap, dmaQNum, regs.drae, regs.draeh, esr, esrh, regs.eer, regs.eerh, regs.ier, regs.ierh, par);
    }

    // DMAContextRestore. The saved events are set again, with the new channel map but before the
    // parameter sets are restored.
    method ContextRestore(c: Context)
      requires Shaped(regs) && Complete(c)
      modifies this
      ensures Shaped(regs) && regs == Restored(old(regs), c)
      ensures triggered == old(triggered)
        + Triggered(c.dchMap, old(regs).param, c.evtSetLow, 0, 32)
        + Triggered(c.dchMap, old(regs).param, c.evtSetHigh, 32, 32)
    {
      RestoreMap(c);
      RestoreQueues(c);
      regs := regs.(drae := c.regAccLow, draeh := c.regAccHigh);
      WriteEsr(c.evtSetLow, 0);
      WriteEsr(c.evtSetHigh, 32);
      RestoreEnables(c);
      RestoreParams(c);
    }

    // Writing a one to EESR or IESR sets the bit in EER or IER, writing a zero does nothing.
    method RestoreEnables(c: Context)
      modifies this`regs
      ensures regs == old(regs).(
        eer := Or(old(regs).eer, c.evtLow), eerh := Or(old(regs).eerh, c.evtHigh),
        ier := Or(old(regs).ier, c.intLow), ierh := Or(old(regs).ierh, c.intHigh))
    {
      regs := regs.(eer := Or(regs.eer, c.evtLow), eerh := Or(regs.eerh, c.evtHigh));
      regs := regs.(ier := Or(regs.ier, c.intLow), ierh := Or(regs.ierh, c.intHigh));
    }

    method RestoreMap(c: Context)
      requires Shaped(regs) && Complete(c)
      modifies this`regs
      ensures Shaped(regs) && regs == old(regs).(dchmap := c.dchMap)
    {
      for i := 0 to CHANNELS
        invariant Shaped(regs)
        invariant regs == old(regs).(dchmap := c.dchMap[..i] + old(regs).dchmap[i..])
      {
        regs := regs.(dchmap := regs.dchmap[i := c.dchMap[i]]);
      }
    }

    method RestoreQueues(c: Context)
      requires Shaped(regs) && Complete(c)
      modifies this`regs
      ensures Shaped(regs) && regs == old(regs).(dmaqnum := c.dmaQNum)
    {
      for i := 0 to QNUM_WORDS
        invariant Shaped(regs)
        invariant regs == old(regs).(dmaqnum := c.dmaQNum[..i] + old(regs).dmaqnum[i..])
      {
        regs := regs.(dmaqnum := regs.dmaqnum[i := c.dmaQNum[i]]);
      }
    }

    method RestoreParams(c: Context)
      requires Shaped(regs) && Complete(c)
      modifies this`regs
      ensures Shaped(regs) && regs == old(regs).(param := c.par[..PARAM_SETS])
    {
      for i := 0 to PARAM_SETS
        invariant Shaped(regs)
        invariant regs == old(regs).(param := c.par[..i] + old(regs).param[i..])
      {
        PutOne(c.par[..PARAM_SETS], old(regs).param, i);
        assert c.par[..PARAM_SETS][..i] == c.par[..i] && c.par[..PARAM_SETS][..i + 1] == c.par[..i + 1];
        SetPaRam(i, c.par[i]);
      }
    }
  }

  // The parameter sets that the saved events use
  ghost predicate EventsReady(dchmap: seq<Bits>, now: seq<seq<Bits>>, saved: seq<seq<Bits>>, v: Bits, base: nat)
    requires |dchmap| == CHANNELS && |now| == |saved| == PARAM_SETS && base + 32 <= CHANNELS
  {
    forall i :: 0 <= i < 32 && v[i] ==> Ready(dchmap, now, saved, base + i)
  }

  // Save on one controller, restore onto another: the registers come out the same if and only if the
  // other had no foreign enables, and the saved events start the saved transfers if and only if their
  // parameter sets were there already.
  method SaveRestore(before: Controller, after: Controller)
    requires before != after && Shaped(before.regs) && Shaped(after.regs)
    modifies after
    ensures after.regs == before.regs <==> old(EnablesWithin(after.regs, before.regs))
    ensures |after.triggered| >= |old(after.triggered)|
    ensures
      var b := before.regs;
      after.triggered == old(after.triggered) + Triggered(b.dchmap, b.param, before.esr, 0, 32)
                         + Triggered(b.dchmap, b.param, before.esrh, 32, 32)
      <==> EventsReady(b.dchmap, old(after.regs).param, b.param, before.esr, 0)
           && EventsReady(b.dchmap, old(after.regs).param, b.param, before.esrh, 32)
  {
    var c := before.ContextSave();
    ghost var b, stale, was := before.regs, after.regs.param, after.triggered;
    RestoreUndoesSave(b, after.regs, c);
    after.ContextRestore(c);
    TriggersStale(b.dchmap, stale, b.param, before.esr, 0, 32);
    TriggersStale(b.dchmap, stale, b.param, before.esrh, 32, 32);
    SameParts(was, Triggered(b.dchmap, stale, before.esr, 0, 32), Triggered(b.dchmap, stale, before.esrh, 32, 32),
              Triggered(b.dchmap, b.param, before.esr, 0, 32), Triggered(b.dchmap, b.param, before.esrh, 32, 32));
  }

  lemma SameParts<T>(w: seq<T>, s: seq<T>, t: seq<T>, u: seq<T>, v: seq<T>)
    requires |s| == |u| && |t| == |v|
    ensures w + s + t == w + u + v <==> s == u && t == v
  {
    if w + s + t == w + u + v {
      assert s == (w + s + t)[|w|..|w| + |s|] == (w + u + v)[|w|..|w| + |u|] == u;
      assert t == (w + s + t)[|w| + |s|..] == (w + u + v)[|w| + |u|..] == v;
    }
  }
}
