// The DMA completion interrupt routine, against an interrupt-pending register that clears the bits
// written to its clear register and may gain bits at any access.
module EdmaIsr {
  import opened BitWords

  const RETRY_COUNT: nat := 10

  // The set bits of a word, in the order a scan from bit 0 meets them
  function SetBits(w: Bits, n: nat): (r: seq<nat>)
    requires n <= 32
    ensures |r| <= n
    ensures forall i :: 0 <= i < |r| ==> r[i] < n && w[r[i]]
    ensures forall i, j :: 0 <= i < j < |r| ==> r[i] < r[j]
  {
    if n == 0 then [] else SetBits(w, n - 1) + (if w[n - 1] then [n - 1] else [])
  }

  lemma {:induction false} SetBitsComplete(w: Bits, n: nat, k: nat)
    requires k < n <= 32 && w[k]
    ensures k in SetBits(w, n)
  {
    if k < n - 1 {
      SetBitsComplete(w, n - 1, k);
    }
  }

  lemma {:induction false} NoBitsAbove(w: Bits, k: nat, n: nat)
    requires k <= n <= 32 && forall i :: k <= i < n ==> !w[i]
    ensures SetBits(w, n) == SetBits(w, k)
    decreases n
  {
    if k < n {
      NoBitsAbove(w, k, n - 1);
    }
  }

  // Bits below k that the scan meets before bit i
  lemma {:induction false} CountsGrow(w: Bits, i: nat, k: nat)
    requires i < k <= 32 && w[i]
    ensures |SetBits(w, i)| < |SetBits(w, k)|
    decreases k
  {
    if i < k - 1 {
      CountsGrow(w, i, k - 1);
    }
  }

  // The callbacks a pass makes: those registered, of the bits it found
  function Registered(tccs: seq<nat>, cb: set<nat>): seq<nat> {
    if tccs == [] then []
    else
      var n := |tccs| - 1;
      Registered(tccs[..n], cb) + (if tccs[n] in cb then [tccs[n]] else [])
  }

  predicate Increasing(r: seq<nat>) { forall i, j :: 0 <= i < j < |r| ==> r[i] < r[j] }

  lemma {:induction false} RegisteredOf(tccs: seq<nat>, cb: set<nat>, k: nat)
    requires Increasing(tccs)
    ensures Increasing(Registered(tccs, cb)) && (k in Registered(tccs, cb) <==> k in tccs && k in cb)
    ensures forall i :: 0 <= i < |Registered(tccs, cb)| ==> Registered(tccs, cb)[i] in tccs
  {
    if tccs != [] {
      var n := |tccs| - 1;
      RegisteredOf(tccs[..n], cb, k);
      assert tccs == tccs[..n] + [tccs[n]];
    }
  }

  // A pass calls back exactly for the registered bits of its snapshot, once each, from bit 0 up.
  lemma CalledOnce(w: Bits, cb: set<nat>, k: nat)
    ensures Increasing(Registered(SetBits(w, 32), cb))
    ensures k in Registered(SetBits(w, 32), cb) <==> k < 32 && w[k] && k in cb
  {
    RegisteredOf(SetBits(w, 32), cb, k);
    if k < 32 && w[k] {
      SetBitsComplete(w, 32, k);
    }
  }

  lemma ScanStep(w: Bits, k: nat, cb: set<nat>)
    requires k < 32
    ensures Registered(SetBits(w, k + 1), cb)
         == Registered(SetBits(w, k), cb) + (if w[k] && k in cb then [k] else [])
  {
    var before := SetBits(w, k);
    if w[k] {
      assert (before + [k])[..|before|] == before;
    } else {
      assert before + [] == before;
    }
  }

  lemma ShrStep(w: Bits, k: nat)
    requires k < 32
    ensures Shr(Shr(w, k), 1) == Shr(w, k + 1) && Shr(w, k)[0] == w[k]
  {
  }

  // ---- Arrivals and what is outstanding ----

  // Bit k became pending just before one of the accesses from..to.
  ghost predicate Arrived(arrive: nat -> Bits, from: nat, to: nat, k: nat)
    requires k < 32
  {
    exists t :: from <= t < to && arrive(t)[k]
  }

  lemma ArrivedSplit(arrive: nat -> Bits, from: nat, mid: nat, to: nat, k: nat)
    requires k < 32 && from <= mid <= to
    ensures Arrived(arrive, from, to, k) <==> Arrived(arrive, from, mid, k) || Arrived(arrive, mid, to, k)
  {
  }

  lemma ArrivedOnce(arrive: nat -> Bits, t: nat, k: nat)
    requires k < 32
    ensures Arrived(arrive, t, t + 1, k) <==> arrive(t)[k]
  {
  }

  // One pass: the access that took the snapshot, the snapshot, and the callbacks made
  datatype Pass = Pass(at: nat, found: Bits, called: seq<nat>)

  // The access that clears bit k of the snapshot
  function ClearedAt(p: Pass, k: nat): nat
    requires k < 32
  {
    p.at + 1 + |SetBits(p.found, k)|
  }

  // The access after the pass
  function After(p: Pass): nat { p.at + 1 + |SetBits(p.found, 32)| }

  // Passes follow each other without an access in between, the first at access t.
  ghost predicate Timeline(ps: seq<Pass>, t: nat) {
    ps != [] ==>
      var n := |ps| - 1;
      Timeline(ps[..n], t) && ps[n].at == Finish(ps[..n], t)
  }

  function Finish(ps: seq<Pass>, t: nat): nat { if ps == [] then t else After(ps[|ps| - 1]) }

  // Every pass that found bit k had cleared it before access t.
  ghost predicate ClearedBefore(ps: seq<Pass>, k: nat, t: nat)
    requires k < 32
  {
    forall j :: 0 <= j < |ps| && ps[j].found[k] ==> ClearedAt(ps[j], k) < t
  }

  // Bit k was pending at the start and no pass has found it, or it arrived after the last time it was cleared.
  ghost predicate Outstanding(arrive: nat -> Bits, from: nat, before: Bits, ps: seq<Pass>, k: nat, now: nat)
    requires k < 32
  {
    || (before[k] && forall j :: 0 <= j < |ps| ==> !ps[j].found[k])
    || exists t :: from <= t < now && arrive(t)[k] && ClearedBefore(ps, k, t)
  }

  lemma {:induction false} EarlierPasses(ps: seq<Pass>, t: nat, k: nat, j: nat)
    requires Timeline(ps, t) && j < |ps| && k < 32 && ps[j].found[k]
    ensures ClearedAt(ps[j], k) < Finish(ps, t)
    decreases |ps|
  {
    var n := |ps| - 1;
    FinishGrows(ps, t);
    if j < n {
      EarlierPasses(ps[..n], t, k, j);
    } else {
      ClearedWithin(ps[n], k);
    }
  }

  lemma FinishGrows(ps: seq<Pass>, t: nat)
    requires Timeline(ps, t) && ps != []
    ensures Finish(ps[..|ps| - 1], t) < Finish(ps, t) == After(ps[|ps| - 1])
  {
  }

  lemma ClearedWithin(p: Pass, k: nat)
    requires k < 32 && p.found[k]
    ensures ClearedAt(p, k) < After(p)
  {
    CountsGrow(p.found, k, 32);
  }

  // Reading the register: what is outstanding now, and what has arrived since.
  lemma OutstandingLater(arrive: nat -> Bits, from: nat, before: Bits, ps: seq<Pass>, start: nat, k: nat,
                         now: nat, to: nat)
    requires k < 32 && Timeline(ps, start) && from <= start && Finish(ps, start) <= now <= to && from <= now
    ensures Outstanding(arrive, from, before, ps, k, to)
      <==> Outstanding(arrive, from, before, ps, k, now) || Arrived(arrive, now, to, k)
  {
    forall t | now <= t ensures ClearedBefore(ps, k, t) {
      forall j | 0 <= j < |ps| && ps[j].found[k] ensures ClearedAt(ps[j], k) < t {
        EarlierPasses(ps, start, k, j);
      }
    }
  }

  // A pass that did not find bit k leaves it as outstanding as it was.
  lemma NotFound(arrive: nat -> Bits, from: nat, before: Bits, ps: seq<Pass>, p: Pass, k: nat, now: nat)
    requires k < 32 && !p.found[k]
    ensures Outstanding(arrive, from, before, ps + [p], k, now) <==> Outstanding(arrive, from, before, ps, k, now)
  {
    var qs := ps + [p];
    forall t ensures ClearedBefore(qs, k, t) <==> ClearedBefore(ps, k, t) {
      if ClearedBefore(qs, k, t) {
        forall j | 0 <= j < |ps| && ps[j].found[k] ensures ClearedAt(ps[j], k) < t {
          assert qs[j] == ps[j];
        }
      }
    }
    if forall j :: 0 <= j < |qs| ==> !qs[j].found[k] {
      forall j | 0 <= j < |ps| ensures !ps[j].found[k] {
        assert qs[j] == ps[j];
      }
    }
  }

  // A pass that found bit k leaves it outstanding just if it arrived again after being cleared.
  lemma Found(arrive: nat -> Bits, from: nat, before: Bits, ps: seq<Pass>, p: Pass, start: nat, k: nat, now: nat)
    requires k < 32 && p.found[k] && Timeline(ps, start) && from <= start && p.at == Finish(ps, start)
    requires from <= p.at
    ensures Outstanding(arrive, from, before, ps + [p], k, now) <==> Arrived(arrive, ClearedAt(p, k) + 1, now, k)
  {
    var qs := ps + [p];
    assert qs[|ps|] == p;
    forall t ensures ClearedBefore(qs, k, t) <==> ClearedAt(p, k) < t {
      if ClearedAt(p, k) < t {
        forall j | 0 <= j < |qs| && qs[j].found[k] ensures ClearedAt(qs[j], k) < t {
          if j < |ps| { EarlierPasses(ps, start, k, j); }
        }
      }
    }
  }

  lemma {:induction false} FinishLater(ps: seq<Pass>, t: nat)
    requires Timeline(ps, t)
    ensures t <= Finish(ps, t)
    decreases |ps|
  {
    if ps != [] {
      FinishLater(ps[..|ps| - 1], t);
    }
  }

  class Controller {
    var ipr: Bits
    var iprh: Bits
    var clock: nat               // register accesses so far
    const arrive: nat -> Bits    // low bits becoming pending just before each access
    const cbFxn: set<nat>        // transfer completion codes with a callback
    var passes: seq<Pass>        // history of the routine's passes

    constructor (arrive: nat -> Bits, cbFxn: set<nat>, ipr: Bits, iprh: Bits)
      ensures this.arrive == arrive && this.cbFxn == cbFxn && this.ipr == ipr && this.iprh == iprh && passes == []
    {
      this.arrive, this.cbFxn, this.ipr, this.iprh, clock, passes := arrive, cbFxn, ipr, iprh, 0, [];
    }

    // DMAGetIntrStatus
    method GetIntrStatus() returns (w: Bits)
      modifies this`ipr, this`clock
      ensures w == ipr && ipr == Or(old(ipr), arrive(old(clock))) && clock == old(clock) + 1
    {
      ipr := Or(ipr, arrive(clock));
      clock := clock + 1;
      w := ipr;
    }

    // DMAClrIntr
    method ClrIntr(value: nat)
      requires value < 64
      modifies this`ipr, this`iprh, this`clock
      ensures forall i :: 0 <= i < 32 ==> ipr[i] == (i != value && (old(ipr)[i] || arrive(old(clock))[i]))
      ensures forall i :: 0 <= i < 32 ==> iprh[i] == (i + 32 != value && old(iprh)[i])
      ensures clock == old(clock) + 1
    {
      ipr := Or(ipr, arrive(clock));
      clock := clock + 1;
      if value < 32 {
        ipr := And(ipr, Not(Shl(One(), value)));
      } else {
        iprh := And(iprh, Not(Shl(One(), value - 32)));
      }
    }

    // The register once the bits of a snapshot below k have been cleared, each by an access of its own
    ghost predicate Served(from: nat, before: Bits, snapshot: Bits, k: nat, w: Bits, now: nat)
      requires k <= 32
    {
      && now == from + |SetBits(snapshot, k)|
      && forall i :: 0 <= i < 32 ==> (w[i] <==> ServedBit(from, before, snapshot, k, i, now))
    }

    ghost predicate ServedBit(from: nat, before: Bits, snapshot: Bits, k: nat, i: nat, now: nat)
      requires i < 32
    {
      if i < k && snapshot[i] then Arrived(arrive, from + |SetBits(snapshot, i)| + 1, now, i)
      else before[i] || Arrived(arrive, from, now, i)
    }

    lemma SkipBit(from: nat, before: Bits, snapshot: Bits, k: nat, w: Bits, now: nat)
      requires k < 32 && !snapshot[k] && Served(from, before, snapshot, k, w, now)
      ensures Served(from, before, snapshot, k + 1, w, now)
    {
      forall i | 0 <= i < 32 ensures w[i] <==> ServedBit(from, before, snapshot, k + 1, i, now) {
        assert w[i] <==> ServedBit(from, before, snapshot, k, i, now);
      }
    }

    lemma ServedLater(from: nat, before: Bits, snapshot: Bits, k: nat, i: nat, now: nat)
      requires k < 32 && i < 32 && snapshot[k] && now == from + |SetBits(snapshot, k)|
      ensures i != k ==>
        (ServedBit(from, before, snapshot, k + 1, i, now + 1)
         <==> ServedBit(from, before, snapshot, k, i, now) || arrive(now)[i])
      ensures !ServedBit(from, before, snapshot, k + 1, k, now + 1)
    {
      ArrivedOnce(arrive, now, i);
      if i < k && snapshot[i] {
        CountsGrow(snapshot, i, k);
        ArrivedSplit(arrive, from + |SetBits(snapshot, i)| + 1, now, now + 1, i);
      } else {
        ArrivedSplit(arrive, from, now, now + 1, i);
      }
    }

    method ServeBit(k: nat, ghost from: nat, ghost before: Bits, ghost snapshot: Bits)
      requires k < 32 && snapshot[k] && Served(from, before, snapshot, k, ipr, clock)
      modifies this`ipr, this`iprh, this`clock
      ensures Served(from, before, snapshot, k + 1, ipr, clock) && iprh == old(iprh)
    {
      ghost var now, was := clock, ipr;
      ClrIntr(k);
      forall i | 0 <= i < 32
        ensures ipr[i] <==> ServedBit(from, before, snapshot, k + 1, i, clock)
      {
        ServedLater(from, before, snapshot, k, i, now);
        assert was[i] <==> ServedBit(from, before, snapshot, k, i, now);
      }
    }

    // The inner loop of DMACompletionISR. Every bit of the snapshot is cleared, and its callback, if
    // registered, is called once; index ends at zero just when the snapshot was empty.
    method ScanPending(snapshot: Bits) returns (indexl: nat, called: seq<nat>)
      modifies this`ipr, this`iprh, this`clock
      ensures called == Registered(SetBits(snapshot, 32), cbFxn)
      ensures indexl == 0 <==> !NonZero(snapshot)
      ensures Served(old(clock), old(ipr), snapshot, 32, ipr, clock) && iprh == old(iprh)
    {
      indexl, called := 0, [];
      var pendingIrqs := snapshot;
      assert Shr(snapshot, 0) == snapshot;
      while NonZero(pendingIrqs)
        invariant 0 <= indexl <= 32 && iprh == old(iprh)
        invariant pendingIrqs == Shr(snapshot, indexl)
        invariant called == Registered(SetBits(snapshot, indexl), cbFxn)
        invariant indexl > 0 ==> NonZero(snapshot)
        invariant Served(old(clock), old(ipr), snapshot, indexl, ipr, clock)
        decreases 32 - indexl
      {
        ScanStep(snapshot, indexl, cbFxn);
        ShrStep(snapshot, indexl);
        if pendingIrqs[0] {
          ServeBit(indexl, old(clock), old(ipr), snapshot);
          if indexl in cbFxn {
            called := called + [indexl];
          }
        } else {
          SkipBit(old(clock), old(ipr), snapshot, indexl, ipr, clock);
        }
        indexl := indexl + 1;
        pendingIrqs := Shr(pendingIrqs, 1);
      }
      ScanDone(snapshot, indexl);
      AllServed(old(clock), old(ipr), snapshot, indexl, ipr, clock);
    }

    lemma ScanDone(snapshot: Bits, k: nat)
      requires k <= 32 && !NonZero(Shr(snapshot, k))
      ensures SetBits(snapshot, k) == SetBits(snapshot, 32)
      ensures forall i :: k <= i < 32 ==> !snapshot[i]
      ensures k == 0 ==> !NonZero(snapshot)
    {
      forall i | k <= i < 32 ensures !snapshot[i] {
        assert Shr(snapshot, k)[i - k] == snapshot[i];
      }
      NoBitsAbove(snapshot, k, 32);
    }

    lemma AllServed(from: nat, before: Bits, snapshot: Bits, k: nat, w: Bits, now: nat)
      requires k <= 32 && Served(from, before, snapshot, k, w, now) && forall i :: k <= i < 32 ==> !snapshot[i]
      requires SetBits(snapshot, k) == SetBits(snapshot, 32)
      ensures Served(from, before, snapshot, 32, w, now)
    {
      forall i | 0 <= i < 32 ensures w[i] <==> ServedBit(from, before, snapshot, 32, i, now) {
        assert w[i] <==> ServedBit(from, before, snapshot, k, i, now);
      }
    }

    // What one pass does to the register and the history
    ghost predicate PassMade(p: Pass, was: Bits, w: Bits, now: nat) {
      && p.found == Or(was, arrive(p.at)) && p.called == Registered(SetBits(p.found, 32), cbFxn)
      && Served(p.at + 1, p.found, p.found, 32, w, now)
    }

    // The body of the outer loop: one pass over what is pending
    method OnePass() returns (indexl: nat)
      modifies this`ipr, this`iprh, this`clock, this`passes
      ensures iprh == old(iprh)
      ensures passes != [] && passes == old(passes) + [passes[|passes| - 1]]
      ensures var p := passes[|passes| - 1];
        p.at == old(clock) && PassMade(p, old(ipr), ipr, clock) && (indexl == 0 <==> !NonZero(p.found))
    {
      var t := clock;
      var pendingIrqs := GetIntrStatus();
      var called;
      indexl, called := ScanPending(pendingIrqs);
      passes := passes + [Pass(t, pendingIrqs, called)];
    }

    // ---- The whole routine ----

    // Each pass found exactly what was outstanding and called back exactly what it found.
    ghost predicate Accounted(from: nat, before: Bits, ps: seq<Pass>) {
      ps != [] ==>
        var n := |ps| - 1;
        Accounted(from, before, ps[..n]) && Explained(from, before, ps[..n], ps[n])
    }

    ghost predicate Explained(from: nat, before: Bits, ps: seq<Pass>, p: Pass) {
      && p.at == Finish(ps, from + 1) && p.called == Registered(SetBits(p.found, 32), cbFxn)
      && Exact(from, before, ps, p.found, p.at + 1)
    }

    lemma {:induction false} AccountedInTime(from: nat, before: Bits, ps: seq<Pass>)
      requires Accounted(from, before, ps)
      ensures Timeline(ps, from + 1)
    {
      if ps != [] {
        AccountedInTime(from, before, ps[..|ps| - 1]);
      }
    }

    // The register holds exactly what is outstanding.
    ghost predicate Exact(from: nat, before: Bits, ps: seq<Pass>, w: Bits, now: nat) {
      forall k :: 0 <= k < 32 ==> (w[k] <==> Outstanding(arrive, from, before, ps, k, now))
    }

    // One more pass: what it found was outstanding, and what it leaves is outstanding.
    lemma PassFound(from: nat, before: Bits, was: Bits, ps: seq<Pass>, t: nat)
      requires Timeline(ps, from + 1) && t == Finish(ps, from + 1) && Exact(from, before, ps, was, t)
      ensures Exact(from, before, ps, Or(was, arrive(t)), t + 1)
    {
      FinishLater(ps, from + 1);
      forall k | 0 <= k < 32 ensures Or(was, arrive(t))[k] <==> Outstanding(arrive, from, before, ps, k, t + 1) {
        OutstandingLater(arrive, from, before, ps, from + 1, k, t, t + 1);
        ArrivedOnce(arrive, t, k);
      }
    }

    lemma BitLeft(from: nat, before: Bits, ps: seq<Pass>, p: Pass, k: nat, now: nat)
      requires k < 32 && Timeline(ps, from + 1) && p.at == Finish(ps, from + 1) && p.at + 1 <= now
      requires p.found[k] <==> Outstanding(arrive, from, before, ps, k, p.at + 1)
      ensures ServedBit(p.at + 1, p.found, p.found, 32, k, now) <==> Outstanding(arrive, from, before, ps + [p], k, now)
    {
      FinishLater(ps, from + 1);
      if p.found[k] {
        Found(arrive, from, before, ps, p, from + 1, k, now);
      } else {
        NotFound(arrive, from, before, ps, p, k, now);
        OutstandingLater(arrive, from, before, ps, from + 1, k, p.at + 1, now);
      }
    }

    lemma PassLeaves(from: nat, before: Bits, ps: seq<Pass>, p: Pass, w: Bits, now: nat)
      requires Timeline(ps, from + 1) && p.at == Finish(ps, from + 1) && Exact(from, before, ps, p.found, p.at + 1)
      requires Served(p.at + 1, p.found, p.found, 32, w, now)
      ensures Exact(from, before, ps + [p], w, now)
    {
      forall k | 0 <= k < 32 ensures w[k] <==> Outstanding(arrive, from, before, ps + [p], k, now) {
        BitLeft(from, before, ps, p, k, now);
      }
    }

    // The routine after some passes; done once a pass has found nothing
    ghost predicate Progress(from: nat, before: Bits, ps: seq<Pass>, done: bool, w: Bits, now: nat) {
      && Accounted(from, before, ps) && Exact(from, before, ps, w, now) && now == Finish(ps, from + 1)
      && AllFound(ps, done) && (done ==> w == Zero())
    }

    // Every pass but the last found something, and the last did unless the routine is done.
    ghost predicate AllFound(ps: seq<Pass>, done: bool) {
      forall i :: 0 <= i < |ps| ==> (NonZero(ps[i].found) <==> !(done && i == |ps| - 1))
    }

    lemma AllFoundMore(ps: seq<Pass>, p: Pass)
      requires AllFound(ps, false)
      ensures AllFound(ps + [p], !NonZero(p.found))
    {
    }

    lemma OneMore(from: nat, before: Bits, was: Bits, ps: seq<Pass>, p: Pass, w: Bits, now: nat)
      requires Progress(from, before, ps, false, was, p.at) && PassMade(p, was, w, now)
      ensures Progress(from, before, ps + [p], !NonZero(p.found), w, now)
    {
      AccountedInTime(from, before, ps);
      PassFound(from, before, was, ps, p.at);
      PassLeaves(from, before, ps, p, w, now);
      assert (ps + [p])[..|ps|] == ps;
      AllFoundMore(ps, p);
      if !NonZero(p.found) { NothingFound(p.found, p.at + 1, w, now); }
    }

    lemma FirstRead(from: nat, before: Bits)
      ensures Progress(from, before, [], false, Or(before, arrive(from)), from + 1)
    {
      var w := Or(before, arrive(from));
      forall k | 0 <= k < 32 ensures w[k] <==> Outstanding(arrive, from, before, [], k, from + 1) {
        if arrive(from)[k] {
          assert ClearedBefore([], k, from);
        }
      }
    }

    // A pass that finds nothing makes no access after its snapshot.
    lemma NothingFound(found: Bits, t: nat, w: Bits, now: nat)
      requires !NonZero(found) && Served(t, found, found, 32, w, now)
      ensures w == Zero()
    {
      NoBitsAbove(found, 0, 32);
      forall i | 0 <= i < 32 ensures !w[i] {
        assert w[i] <==> ServedBit(t, found, found, 32, i, now);
      }
    }

    lemma NotNonZero(w: Bits)
      requires !NonZero(w)
      ensures w == Zero()
    {
    }

    // DMACompletionISR. The passes account for everything: each finds exactly what was pending on
    // entry or has arrived and not been cleared since, clears it and calls back once for it. Every bit
    // left pending has arrived after the last snapshot, and is left only once the passes are used up.
    method CompletionIsr() returns (ghost ps: seq<Pass>)
      modifies this`ipr, this`iprh, this`clock, this`passes
      ensures iprh == old(iprh) && passes == old(passes) + ps && |ps| <= 10
      ensures ps == [] <==> !NonZero(Or(old(ipr), arrive(old(clock))))
      ensures if ps == [] then ipr == Zero() && clock == old(clock) + 1
              else Progress(old(clock), old(ipr), ps, true, ipr, clock)
                   || (|ps| == 10 && Progress(old(clock), old(ipr), ps, false, ipr, clock))
    {
      var i, indexl := 0, 1;
      ps := [];
      var isIpr := GetIntrStatus();
      if NonZero(isIpr) {
        FirstRead(old(clock), old(ipr));
        while i < RETRY_COUNT && indexl != 0
          invariant iprh == old(iprh) && passes == old(passes) + ps && |ps| == i <= RETRY_COUNT
          invariant i == 0 ==> indexl != 0
          invariant Progress(old(clock), old(ipr), ps, indexl == 0, ipr, clock)
        {
          ghost var was := ipr;
          indexl := OnePass();
          ghost var p := passes[|passes| - 1];
          OneMore(old(clock), old(ipr), was, ps, p, ipr, clock);
          ps := ps + [p];
          i := i + 1;
        }
      } else {
        NotNonZero(isIpr);
      }
    }

    // ---- What the accounts amount to ----

    // Whatever was pending on entry is dispatched or still pending.
    lemma EntryNotLost(from: nat, before: Bits, ps: seq<Pass>, done: bool, w: Bits, now: nat, k: nat)
      requires Progress(from, before, ps, done, w, now) && k < 32 && before[k]
      ensures w[k] || exists j :: 0 <= j < |ps| && ps[j].found[k]
    {
      assert w[k] <==> Outstanding(arrive, from, before, ps, k, now);
    }

    // Whatever arrives during the run is dispatched by a pass that clears it no earlier, or still pending.
    lemma ArrivalNotLost(from: nat, before: Bits, ps: seq<Pass>, done: bool, w: Bits, now: nat, k: nat, t: nat)
      requires Progress(from, before, ps, done, w, now) && k < 32 && from <= t < now && arrive(t)[k]
      ensures w[k] || exists j :: 0 <= j < |ps| && ps[j].found[k] && t <= ClearedAt(ps[j], k)
    {
      assert w[k] <==> Outstanding(arrive, from, before, ps, k, now);
      if !w[k] {
        assert !ClearedBefore(ps, k, t);
      }
    }

    // Whatever is left pending arrived after the last snapshot, and only if the last pass found something.
    lemma LeftIsLate(from: nat, before: Bits, ps: seq<Pass>, done: bool, w: Bits, now: nat, k: nat)
      requires Progress(from, before, ps, done, w, now) && ps != [] && k < 32 && w[k]
      ensures !done && Arrived(arrive, ps[|ps| - 1].at + 1, now, k)
    {
      var n := |ps| - 1;
      var p := ps[n];
      AccountedInTime(from, before, ps[..n]);
      assert ps[..n] + [p] == ps;
      BitLeft(from, before, ps[..n], p, k, now);
      if p.found[k] {
        ArrivedSplit(arrive, p.at + 1, ClearedAt(p, k) + 1, now, k);
      }
    }

    ghost predicate NoArrivals(from: nat, to: nat) { forall t :: from <= t < to ==> arrive(t) == Zero() }

    lemma FinishAfter(ps: seq<Pass>, t: nat)
      requires ps != []
      ensures ps[|ps| - 1].at + 1 <= Finish(ps, t)
    {
    }

    lemma {:induction false} PassOf(from: nat, before: Bits, ps: seq<Pass>, i: nat)
      requires Accounted(from, before, ps) && i < |ps|
      ensures Explained(from, before, ps[..i], ps[i]) && ps[i].at + 1 <= Finish(ps, from + 1)
      decreases |ps|
    {
      var n := |ps| - 1;
      FinishAfter(ps, from + 1);
      assert Explained(from, before, ps[..n], ps[n]);
      if i < n {
        PassOf(from, before, ps[..n], i);
        assert ps[..n][..i] == ps[..i] && ps[..n][i] == ps[i];
      }
    }

    lemma QuietPass(from: nat, before: Bits, ps: seq<Pass>, i: nat, now: nat)
      requires Accounted(from, before, ps) && i < |ps| && now == Finish(ps, from + 1) && NoArrivals(from, now)
      ensures forall k :: 0 <= k < 32 ==> (ps[i].found[k] <==> before[k] && forall j :: 0 <= j < i ==> !ps[j].found[k])
    {
      PassOf(from, before, ps, i);
      forall k | 0 <= k < 32
        ensures ps[i].found[k] <==> before[k] && forall j :: 0 <= j < i ==> !ps[j].found[k]
      {
        assert ps[i].found[k] <==> Outstanding(arrive, from, before, ps[..i], k, ps[i].at + 1);
        assert forall j :: 0 <= j < i ==> ps[..i][j] == ps[j];
      }
    }

    // If nothing arrives while the routine runs, its first pass finds everything that was pending, and
    // its second and last pass nothing.
    lemma QuietRun(from: nat, before: Bits, ps: seq<Pass>, done: bool, w: Bits, now: nat)
      requires Progress(from, before, ps, done, w, now) && NoArrivals(from, now) && NonZero(before)
      requires ps != [] && (done || |ps| == 10)
      ensures |ps| == 2 && ps[0].found == before && ps[1].found == Zero() && w == Zero()
    {
      QuietPass(from, before, ps, 0, now);
      assert ps[0].found == before;
      if |ps| > 1 {
        QuietPass(from, before, ps, 1, now);
        assert ps[1].found == Zero();
      }
    }
  }
}
