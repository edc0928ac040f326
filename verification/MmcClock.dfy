// The bus clock divisor of the MMC host controller.
module MmcClock {
  import opened Words
  import opened Libc

  const MAX_DIVISOR: nat := 1023
  const RETRIES: nat := 0xFFFF

  lemma DivBounds(n: nat, d: nat, q: nat)
    requires d > 0
    ensures n / d > q <==> n >= (q + 1) * d
  {
    var k, r := n / d, n % d;
    assert n == k * d + r;
    if k > q {
      MulMono(d, q + 1, k);
    } else {
      MulMono(d, k, q);
      assert (q + 1) * d == q * d + d;
    }
  }

  function Ceil(n: nat, d: nat): nat
    requires d > 0
  {
    (n + d - 1) / d
  }

  lemma CeilAboveFloor(n: nat, d: nat)
    requires d > 0 && n % d != 0
    ensures Ceil(n, d) == n / d + 1
  {
    DivUnique(n + d - 1, d, n / d + 1, n % d - 1);
  }

  lemma CeilAtLeastFloor(n: nat, d: nat)
    requires d > 0
    ensures Ceil(n, d) >= n / d
  {
    if n % d != 0 {
      CeilAboveFloor(n, d);
    } else {
      DivUnique(n + d - 1, d, n / d, d - 1);
    }
  }

  // The search for the divisor in MMCSetBusFreq. It finds one exactly when the slowest clock stays
  // below freqOut + 1; the clock it gives overshoots freqOut by less than 1 Hz; and the loop takes at
  // most one step.
  method FindDivisor(freqIn: nat, freqOut: nat) returns (d: Option<nat>, ghost steps: nat)
    requires freqOut > 0
    ensures d.Some? <==> freqIn < 1023 * (freqOut + 1)
    ensures d.Some? ==>
      && 2 <= d.value <= 1023
      && freqIn < (freqOut + 1) * d.value
      && (d.value == 2 || d.value <= Ceil(freqIn, freqOut))
      && (d.value > 2 ==> (d.value - 1) * freqOut < freqIn)
    ensures steps <= 1
  {
    var clkd, rem := UIDivMod(freqIn, freqOut);
    ghost var floor := clkd;
    CeilAtLeastFloor(freqIn, freqOut);
    clkd := if clkd < 2 then 2 else clkd;
    clkd := if clkd > MAX_DIVISOR then MAX_DIVISOR else clkd;
    ghost var start := clkd;
    steps := 0;
    StartBelow(freqIn, freqOut, floor, start);
    var q, r := UIDivMod(freqIn, clkd);
    while q > freqOut
      invariant 2 <= clkd <= MAX_DIVISOR && q == freqIn / clkd && steps <= 1 && clkd == start + steps
      invariant steps == 1 ==> q <= freqOut && freqIn >= (freqOut + 1) * start
      decreases 1 - steps
    {
      DivBounds(freqIn, clkd, freqOut);
      if clkd == MAX_DIVISOR {
        return None, steps;
      }
      NextDivisorFits(freqIn, freqOut, floor, start);
      clkd := clkd + 1;
      steps := steps + 1;
      q, r := UIDivMod(freqIn, clkd);
    }
    DivBounds(freqIn, clkd, freqOut);
    MulMono(freqOut + 1, clkd, MAX_DIVISOR);
    if steps == 1 {
      NotAMultiple(freqIn, freqOut, floor, start);
      CeilAboveFloor(freqIn, freqOut);
    }
    d := Some(clkd);
  }

  predicate StartsAt(floor: nat, start: nat) {
    start == if floor < 2 then 2 else if floor > MAX_DIVISOR then MAX_DIVISOR else floor
  }

  lemma StartBelow(freqIn: nat, freqOut: nat, floor: nat, start: nat)
    requires freqOut > 0 && floor == freqIn / freqOut && StartsAt(floor, start)
    ensures start > 2 ==> (start - 1) * freqOut < freqIn
    ensures floor < 2 ==> freqIn < (freqOut + 1) * 2
  {
    var rem := freqIn % freqOut;
    assert freqIn == floor * freqOut + rem;
    if start > 2 {
      MulMono(freqOut, start, floor);
      assert (start - 1) * freqOut == start * freqOut - freqOut;
    }
    if floor < 2 {
      MulMono(freqOut, floor, 1);
    }
  }

  lemma BelowNext(n: nat, d: nat)
    requires d > 0
    ensures n < (d + 1) * (n / d + 1)
  {
    var k := n / d;
    assert n == k * d + n % d;
    assert (d + 1) * (k + 1) == k * d + d + k + 1;
  }

  // If the starting divisor is too small although not the largest, it is the truncated quotient, and
  // the next one fits.
  lemma NextDivisorFits(freqIn: nat, freqOut: nat, floor: nat, start: nat)
    requires freqOut > 0 && floor == freqIn / freqOut && StartsAt(floor, start) && start < MAX_DIVISOR
    requires freqIn >= (freqOut + 1) * start
    ensures start == floor && freqIn / (start + 1) <= freqOut
  {
    StartBelow(freqIn, freqOut, floor, start);
    BelowNext(freqIn, freqOut);
    DivBounds(freqIn, start + 1, freqOut);
  }

  lemma NotAMultiple(freqIn: nat, freqOut: nat, floor: nat, start: nat)
    requires freqOut > 0 && floor == freqIn / freqOut && StartsAt(floor, start) && start < MAX_DIVISOR
    requires freqIn >= (freqOut + 1) * start
    ensures start == floor && freqIn % freqOut != 0 && start * freqOut < freqIn
  {
    NextDivisorFits(freqIn, freqOut, floor, start);
    assert freqIn == floor * freqOut + freqIn % freqOut;
    assert (freqOut + 1) * start == start * freqOut + start;
  }

  // The SD_SYSCTL register: clock enables, and the 10-bit divisor field. Whether the internal clock
  // is stable at each read is up to the hardware.
  class SysCtl {
    const stable: nat -> bool
    var polls: nat
    var ice: bool
    var cen: bool
    var clkd: nat

    constructor (stable: nat -> bool)
      ensures this.stable == stable
    {
      this.stable, polls, ice, cen, clkd := stable, 0, false, false, 0;
    }

    ghost predicate StableWithin(from: nat, n: nat) {
      exists i :: from <= i < from + n && stable(i)
    }

    // Read i is the first since from to find the clock stable.
    ghost predicate FirstStable(from: nat, i: nat) {
      from <= i && stable(i) && forall j :: from <= j < i ==> !stable(j)
    }

    // The clock is found stable, and found stable again by later reads.
    ghost predicate StableTwice(from: nat) {
      exists i: nat :: FirstStable(from, i) && i <= from + 0xFFFF && StableWithin(i + 1, 0x1_0000)
    }

    // MMCIsIntClockStable: up to retry + 1 reads
    method IsIntClockStable(retry: nat) returns (status: nat)
      modifies this`polls
      ensures status == if StableWithin(old(polls), retry + 1) then 1 else 0
      ensures old(polls) < polls <= old(polls) + retry + 1
      ensures if status == 1 then FirstStable(old(polls), polls - 1) else polls == old(polls) + retry + 1
    {
      var left, done := retry, false;
      status := 0;
      while !done
        invariant 0 <= left <= retry && forall j :: old(polls) <= j < polls - 1 ==> !stable(j)
        invariant !done ==> polls == old(polls) + retry - left && status == 0
        invariant !done && polls > old(polls) ==> !stable(polls - 1)
        invariant done ==> old(polls) < polls <= old(polls) + retry + 1 && status == if stable(polls - 1) then 1 else 0
        invariant done && status == 0 ==> polls == old(polls) + retry + 1
        decreases !done, left
      {
        status := if stable(polls) then 1 else 0;
        polls := polls + 1;
        if status == 1 || left == 0 {
          done := true;
        } else {
          left := left - 1;
        }
      }
    }

    // MMCSetBusFreq. With bypass only the internal clock is started.
    method SetBusFreq(freqIn: nat, freqOut: nat, bypass: bool) returns (status: int)
      requires bypass || freqOut > 0
      modifies this
      ensures ice && (bypass ==> clkd == old(clkd) && cen == old(cen))
      ensures bypass ==> status == if old(StableWithin(polls, 0x1_0000)) then 0 else -1
      ensures !bypass ==>
        status == if freqIn < 1023 * (freqOut + 1) && old(StableTwice(polls)) then 0 else -1
      ensures !bypass && status == 0 ==>
        && cen
        && 2 <= clkd <= 1023 && freqIn / clkd <= freqOut && (clkd == 2 || clkd <= Ceil(freqIn, freqOut))
      ensures status == -1 ==> cen == old(cen)
      ensures !bypass && freqIn >= 1023 * (freqOut + 1) ==> clkd == old(clkd)
    {
      ice := true;
      var ok := IsIntClockStable(RETRIES);
      if ok == 0 { return -1; }
      if bypass { return 0; }
      ghost var first := polls - 1;
      var d, steps := FindDivisor(freqIn, freqOut);
      if d == None { return -1; }
      DivBounds(freqIn, d.value, freqOut);
      clkd := d.value;
      ok := IsIntClockStable(RETRIES);
      OnlyFirst(old(polls), first);
      if ok == 0 { return -1; }
      cen := true;
      return 0;
    }

    lemma OnlyFirst(from: nat, i: nat)
      requires FirstStable(from, i) && i <= from + RETRIES
      ensures StableTwice(from) <==> StableWithin(i + 1, RETRIES + 1)
    {
      if StableTwice(from) {
        var j: nat :| FirstStable(from, j) && j <= from + RETRIES && StableWithin(j + 1, RETRIES + 1);
        assert i == j;
      }
    }
  }
}
