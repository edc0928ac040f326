// The freestanding C library routines: division by repeated subtraction, string comparison and copying.
// Plain char is unsigned on this target.
module Libc {
  import opened Words

  // ---- Division ----

  // C's division, truncating towards zero
  function TruncDiv(a: int, b: int): int
    requires b != 0
  {
    if b > 0 then (if a >= 0 then a / b else -((-a) / b)) else if a >= 0 then -(a / -b) else -a / -b
  }

  function TruncMod(a: int, b: int): int
    requires b != 0
  {
    a - TruncDiv(a, b) * b
  }

  // The remainder is smaller than the denominator and takes the sign of the numerator.
  lemma TruncMeans(a: int, b: int)
    requires b != 0
    ensures a == TruncDiv(a, b) * b + TruncMod(a, b)
    ensures var m := TruncMod(a, b);
      (if b > 0 then -b < m < b else b < m < -b) && (m > 0 ==> a > 0) && (m < 0 ==> a < 0)
  {
    var n: nat, d: nat := if a >= 0 then a else -a, if b > 0 then b else -b;
    assert n == n / d * d + n % d;
    Signs(n / d, d);
    assert TruncDiv(a, b) * b == if a >= 0 then n / d * d else -(n / d * d);
  }

  lemma Signs(q: int, d: int)
    ensures -q * d == -(q * d) == q * -d && -q * -d == q * d
  {
  }

  // __aeabi_uidivmod, and with it __aeabi_uidiv
  method UIDivMod(num: nat, denom: nat) returns (quot: nat, rem: nat)
    requires denom > 0
    ensures num == quot * denom + rem && rem < denom
    ensures quot == num / denom && rem == num % denom
  {
    quot, rem := 0, num;
    while rem >= denom
      invariant num == quot * denom + rem
    {
      rem := rem - denom;
      quot := quot + 1;
    }
    DivUnique(num, denom, quot, rem);
  }

  lemma DivUnique(num: nat, denom: nat, quot: nat, rem: nat)
    requires denom > 0 && num == quot * denom + rem && rem < denom
    ensures quot == num / denom && rem == num % denom
  {
    QuotientUnique(denom, quot, rem, num / denom, num % denom);
  }

  lemma QuotientUnique(d: nat, q: nat, r: nat, u: nat, v: nat)
    requires q * d + r == u * d + v && r < d && v < d
    ensures q == u && r == v
  {
    if q < u {
      Gap(d, q, u);
    } else if u < q {
      Gap(d, u, q);
    }
  }

  lemma Gap(d: nat, q: nat, u: nat)
    requires q < u
    ensures q * d + d <= u * d
  {
    assert u * d == q * d + d + (u - q - 1) * d;
  }

  // __aeabi_idivmod. The loop is never entered for a numerator below the denominator, and ends only
  // then or if the denominator is positive.
  method IDivMod(num: int, denom: int) returns (quot: int, rem: int)
    requires denom > 0 || num < denom
    ensures num == quot * denom + rem
    ensures quot == if denom > 0 && num >= 0 then num / denom else 0
  {
    quot, rem := 0, num;
    while rem >= denom
      invariant num == quot * denom + rem && quot >= 0
      invariant denom > 0 && num >= 0 ==> rem >= 0
      invariant denom <= 0 || num < 0 ==> quot == 0
      decreases rem
    {
      rem := rem - denom;
      quot := quot + 1;
    }
    if denom > 0 && num >= 0 { DivUnique(num, denom, quot, rem); }
  }

  // Where the routine ends with a quotient it is C's exactly for a positive denominator and a numerator
  // above minus the denominator.
  lemma SignedDivisionCorrect(num: int, denom: int)
    requires denom != 0 && (denom > 0 || num < denom)
    ensures (if denom > 0 && num >= 0 then num / denom else 0) == TruncDiv(num, denom) <==> denom > 0 && num > -denom
  {
    if num < 0 {
      var n: nat, d: nat := -num, if denom > 0 then denom else -denom;
      assert n == n / d * d + n % d;
      if n >= d {
        assert n / d > 0;
      }
    }
  }

  lemma MulMono(a: nat, x: nat, y: nat)
    requires x <= y
    ensures a * x <= a * y
  {
  }

  // ---- C strings ----

  // The characters of a C string: no NUL among them
  predicate NoNul(s: seq<byte>) {
    forall i :: 0 <= i < |s| ==> s[i] != 0
  }

  // Memory m holds the C string s at p.
  predicate Holds(m: seq<byte>, p: nat, s: seq<byte>) {
    p + |s| < |m| && m[p..p + |s|] == s && m[p + |s|] == 0 && NoNul(s)
  }

  lemma HoldsOne(m: seq<byte>, p: nat, s: seq<byte>, t: seq<byte>)
    requires Holds(m, p, s) && Holds(m, p, t)
    ensures s == t
  {
    var n := if |s| < |t| then |s| else |t|;
    At(m, p, s, n);
    At(m, p, t, n);
  }

  lemma At(m: seq<byte>, p: nat, s: seq<byte>, n: nat)
    requires Holds(m, p, s) && n <= |s|
    ensures m[p + n] == if n == |s| then 0 else s[n]
  {
    if n < |s| {
      assert m[p..p + |s|][n] == m[p + n];
    }
  }

  // The C string at p
  function CString(m: seq<byte>, p: nat): (s: seq<byte>)
    decreases |m| - p
  {
    if p >= |m| || m[p] == 0 then [] else [m[p]] + CString(m, p + 1)
  }

  lemma {:induction false} CStringHeld(m: seq<byte>, p: nat, s: seq<byte>)
    requires Holds(m, p, s)
    ensures CString(m, p) == s
    decreases |s|
  {
    At(m, p, s, 0);
    if s != [] {
      assert m[p + 1..p + |s|] == m[p..p + |s|][1..];
      CStringHeld(m, p + 1, s[1..]);
      assert s == [s[0]] + s[1..];
    }
  }

  // In memory that ends with a NUL there is a C string everywhere.
  lemma {:induction false} HeldAnywhere(m: seq<byte>, p: nat)
    requires p < |m| && m[|m| - 1] == 0
    ensures Holds(m, p, CString(m, p))
    decreases |m| - p
  {
    if m[p] != 0 {
      HeldAnywhere(m, p + 1);
      var s := CString(m, p + 1);
      assert m[p..p + 1 + |s|] == [m[p]] + m[p + 1..p + 1 + |s|];
    }
  }

  // Lexicographic order
  predicate Less(s: seq<byte>, t: seq<byte>) {
    t != [] && (s == [] || s[0] < t[0] || (s[0] == t[0] && Less(s[1..], t[1..])))
  }

  // A proper prefix comes first; otherwise the first character that differs decides.
  lemma {:induction false} LessMeans(s: seq<byte>, t: seq<byte>)
    ensures Less(s, t) <==> (s <= t && s != t) || exists k :: DiffersAt(s, t, k) && s[k] < t[k]
  {
    if s != [] && t != [] && s[0] == t[0] {
      LessMeans(s[1..], t[1..]);
      assert s == [s[0]] + s[1..] && t == [t[0]] + t[1..];
      if k :| DiffersAt(s, t, k) && s[k] < t[k] {
        assert s[1..][..k - 1] == s[..k][1..] && t[1..][..k - 1] == t[..k][1..];
        assert DiffersAt(s[1..], t[1..], k - 1);
      }
      if k :| DiffersAt(s[1..], t[1..], k) && s[1..][k] < t[1..][k] {
        assert s[..k + 1] == [s[0]] + s[1..][..k] && t[..k + 1] == [t[0]] + t[1..][..k];
        assert DiffersAt(s, t, k + 1);
      }
    } else if s != [] && t != [] {
      assert DiffersAt(s, t, 0);
      forall k | DiffersAt(s, t, k) ensures k == 0 {
        SameBefore(s, t, k, 0);
      }
    }
  }

  lemma SameBefore(s: seq<byte>, t: seq<byte>, k: int, i: nat)
    requires DiffersAt(s, t, k)
    ensures i < k ==> s[i] == t[i]
  {
    if i < k { assert s[..k][i] == t[..k][i]; }
  }

  predicate DiffersAt(s: seq<byte>, t: seq<byte>, k: int) {
    0 <= k < |s| && k < |t| && s[..k] == t[..k] && s[k] != t[k]
  }

  lemma {:induction false} LessTotal(s: seq<byte>, t: seq<byte>)
    ensures Less(s, t) || s == t || Less(t, s)
  {
    if s != [] && t != [] && s[0] == t[0] {
      LessTotal(s[1..], t[1..]);
      assert s == [s[0]] + s[1..] && t == [t[0]] + t[1..];
    }
  }

  lemma {:induction false} LessAsymmetric(s: seq<byte>, t: seq<byte>)
    requires Less(s, t)
    ensures s != t && !Less(t, s)
  {
    if s != [] && s[0] == t[0] {
      LessAsymmetric(s[1..], t[1..]);
    }
  }

  lemma {:induction false} LessTransitive(s: seq<byte>, t: seq<byte>, u: seq<byte>)
    requires Less(s, t) && Less(t, u)
    ensures Less(s, u)
  {
    if s != [] && s[0] == t[0] == u[0] {
      LessTransitive(s[1..], t[1..], u[1..]);
    }
  }

  // The order of two strings is decided after a common prefix.
  lemma {:induction false} LessAfterPrefix(s: seq<byte>, t: seq<byte>, n: nat)
    requires n <= |s| && n <= |t| && s[..n] == t[..n]
    ensures Less(s, t) <==> Less(s[n..], t[n..])
  {
    if n > 0 {
      assert s[0] == s[..n][0] == t[..n][0] == t[0];
      assert s[1..][..n - 1] == s[..n][1..] && t[1..][..n - 1] == t[..n][1..];
      LessAfterPrefix(s[1..], t[1..], n - 1);
      assert s[1..][n - 1..] == s[n..] && t[1..][n - 1..] == t[n..];
    }
  }

  // The first difference, or the end of either string, settles the comparison.
  lemma Settled(r: int, s: seq<byte>, t: seq<byte>, n: nat)
    requires n <= |s| && n <= |t| && s[..n] == t[..n]
    requires n < |s| && n < |t| ==> s[n] != t[n] && ((r < 0) == (s[n] < t[n])) && r != 0
    requires n == |s| && n < |t| ==> r < 0
    requires n < |s| && n == |t| ==> r > 0
    requires n == |s| == |t| ==> r == 0
    ensures (r < 0 <==> Less(s, t)) && (r == 0 <==> s == t) && (r > 0 <==> Less(t, s))
  {
    LessAfterPrefix(s, t, n);
    LessAfterPrefix(t, s, n);
    if n == |s| == |t| {
      assert s == t;
    } else if s == t {
      assert false;
    }
  }

  // strcmp
  method StrCmp(m1: array<byte>, p1: nat, m2: array<byte>, p2: nat, ghost s: seq<byte>, ghost t: seq<byte>)
    returns (r: int)
    requires Holds(m1[..], p1, s) && Holds(m2[..], p2, t)
    ensures (r < 0 <==> Less(s, t)) && (r == 0 <==> s == t) && (r > 0 <==> Less(t, s))
  {
    var n := 0;
    while m1[p1 + n] != 0 && m2[p2 + n] != 0 && m1[p1 + n] == m2[p2 + n]
      invariant n <= |s| && n <= |t| && s[..n] == t[..n]
      invariant m1[p1 + n] == (if n == |s| then 0 else s[n]) && m2[p2 + n] == (if n == |t| then 0 else t[n])
      decreases |s| - n
    {
      n := n + 1;
      At(m1[..], p1, s, n);
      At(m2[..], p2, t, n);
    }
    var c1: int, c2: int := m1[p1 + n], m2[p2 + n];
    r := c1 - c2;
    Settled(r, s, t, n);
  }

  function Take(s: seq<byte>, n: nat): (t: seq<byte>)
    ensures |t| == if n < |s| then n else |s|
  {
    if n < |s| then s[..n] else s
  }

  // strncmp
  method StrNCmp(m1: array<byte>, p1: nat, m2: array<byte>, p2: nat, num: nat, ghost s: seq<byte>, ghost t: seq<byte>)
    returns (r: int)
    requires Holds(m1[..], p1, s) && Holds(m2[..], p2, t)
    ensures -1 <= r <= 1
    ensures r == -1 <==> Less(Take(s, num), Take(t, num))
    ensures r == 0 <==> Take(s, num) == Take(t, num)
  {
    ghost var a, b := Take(s, num), Take(t, num);
    var i := 0;
    while i < num
      invariant 0 <= i <= num && i <= |a| && i <= |b| && a[..i] == b[..i]
    {
      At(m1[..], p1, s, i);
      At(m2[..], p2, t, i);
      if m1[p1 + i] < m2[p2 + i] {
        Settled(-1, a, b, i);
        return -1;
      }
      if m1[p1 + i] > m2[p2 + i] {
        Settled(1, a, b, i);
        return 1;
      }
      if m1[p1 + i] == 0 { break; }
      i := i + 1;
    }
    Settled(0, a, b, i);
    return 0;
  }

  // strncmp agrees with strcmp as soon as its count exceeds the length of the shorter string.
  lemma {:induction false} CountBeyondShorter(s: seq<byte>, t: seq<byte>, num: nat)
    requires num > |s| || num > |t|
    ensures Less(Take(s, num), Take(t, num)) <==> Less(s, t)
    ensures Take(s, num) == Take(t, num) <==> s == t
  {
    var a, b := Take(s, num), Take(t, num);
    if s != [] && t != [] && s[0] == t[0] {
      CountBeyondShorter(s[1..], t[1..], num - 1);
      assert a[1..] == Take(s[1..], num - 1) && b[1..] == Take(t[1..], num - 1);
      assert s == [s[0]] + s[1..] && t == [t[0]] + t[1..] && a == [a[0]] + a[1..] && b == [b[0]] + b[1..];
    }
  }

  // memcmp
  method MemCmp(m1: array<byte>, p1: nat, m2: array<byte>, p2: nat, n: nat) returns (r: int)
    requires p1 + n <= m1.Length && p2 + n <= m2.Length
    ensures -1 <= r <= 1
    ensures r == -1 <==> Less(m1[p1..p1 + n], m2[p2..p2 + n])
    ensures r == 0 <==> m1[p1..p1 + n] == m2[p2..p2 + n]
  {
    ghost var s, t := m1[p1..p1 + n], m2[p2..p2 + n];
    var i := 0;
    while i < n
      invariant 0 <= i <= n && s[..i] == t[..i]
    {
      if m1[p1 + i] < m2[p2 + i] {
        Settled(-1, s, t, i);
        return -1;
      }
      if m1[p1 + i] > m2[p2 + i] {
        Settled(1, s, t, i);
        return 1;
      }
      assert s[i] == t[i];
      i := i + 1;
    }
    Settled(0, s, t, n);
    return 0;
  }

  // On memory without a NUL in the bytes compared, memcmp gives what strncmp gives.
  lemma MemCmpIsStrNCmp(m1: seq<byte>, p1: nat, m2: seq<byte>, p2: nat, n: nat, s: seq<byte>, t: seq<byte>)
    requires Holds(m1, p1, s) && Holds(m2, p2, t)
    requires p1 + n <= |m1| && p2 + n <= |m2| && NoNul(m1[p1..p1 + n]) && NoNul(m2[p2..p2 + n])
    ensures m1[p1..p1 + n] == Take(s, n) && m2[p2..p2 + n] == Take(t, n)
  {
    PrefixOfString(m1, p1, n, s);
    PrefixOfString(m2, p2, n, t);
  }

  lemma PrefixOfString(m: seq<byte>, p: nat, n: nat, s: seq<byte>)
    requires Holds(m, p, s) && p + n <= |m| && NoNul(m[p..p + n])
    ensures n <= |s| && m[p..p + n] == s[..n]
  {
    var k := if |s| < n then |s| else 0;
    At(m, p, s, |s|);
    assert n > 0 ==> m[p..p + n][k] == m[p + k];
    assert m[p..p + n] == m[p..p + |s|][..n];
  }

  // strlen
  method StrLen(m: array<byte>, p: nat, ghost s: seq<byte>) returns (n: nat)
    requires Holds(m[..], p, s)
    ensures n == |s|
  {
    n := 0;
    while m[p + n] != 0
      invariant n <= |s|
      decreases |s| - n
    {
      At(m[..], p, s, n);
      n := n + 1;
    }
    At(m[..], p, s, n);
  }

  // ---- Copying ----

  // Only the n bytes from q on have changed, and they are those of s.
  predicate Copied(now: seq<byte>, was: seq<byte>, q: nat, s: seq<byte>, n: nat) {
    && n <= |s| && q + n <= |now| == |was|
    && (forall i :: 0 <= i < n ==> now[q + i] == s[i])
    && forall i :: 0 <= i < |now| && !(q <= i < q + n) ==> now[i] == was[i]
  }

  lemma AllCopied(now: seq<byte>, was: seq<byte>, q: nat, s: seq<byte>)
    requires Copied(now, was, q, s, |s|)
    ensures now == Splice(was, q, s)
  {
    var r := Splice(was, q, s);
    forall i | 0 <= i < |now| ensures now[i] == r[i] {
      if q <= i < q + |s| {
        assert now[q + (i - q)] == s[i - q] == r[q..q + |s|][i - q];
      }
    }
  }

  // Copying n bytes upwards from p to q in one memory does not overwrite what is still to be read.
  predicate CopiesUp(q: nat, p: nat, n: nat) { q <= p || q >= p + n }

  // From byte c on the string with its NUL is still there.
  predicate StillHolds(m: seq<byte>, p: nat, s: seq<byte>, c: nat) {
    p + |s| < |m| && forall k :: p + c <= k <= p + |s| ==> m[k] == if k == p + |s| then 0 else s[k - p]
  }

  lemma HoldsStill(m: seq<byte>, p: nat, s: seq<byte>)
    requires Holds(m, p, s)
    ensures StillHolds(m, p, s, 0)
  {
    forall k | p <= k <= p + |s| ensures m[k] == if k == p + |s| then 0 else s[k - p] {
      At(m, p, s, k - p);
    }
  }

  // strcpy. Within one memory the target must not begin inside the source.
  method StrCpy(d: array<byte>, q: nat, m: array<byte>, p: nat, ghost s: seq<byte>)
    requires Holds(m[..], p, s) && q + |s| < d.Length && (d == m ==> CopiesUp(q, p, |s| + 1))
    modifies d
    ensures d[..] == Splice(old(d[..]), q, s + [0])
  {
    var c := 0;
    HoldsStill(m[..], p, s);
    while m[p + c] != 0
      invariant c <= |s| && StillHolds(m[..], p, s, c)
      invariant Copied(d[..], old(d[..]), q, s + [0], c)
      decreases |s| - c
    {
      d[q + c] := m[p + c];
      c := c + 1;
    }
    d[q + c] := 0;
    AllCopied(d[..], old(d[..]), q, s + [0]);
  }

  // strcat. Its second loop is that of strcpy, from the NUL of the target on.
  method StrCat(d: array<byte>, q: nat, m: array<byte>, p: nat, ghost s: seq<byte>, ghost t: seq<byte>)
    requires Holds(d[..], q, s) && Holds(m[..], p, t) && q + |s| + |t| < d.Length
    requires d == m ==> CopiesUp(q + |s|, p, |t| + 1)
    modifies d
    ensures d[..] == Splice(old(d[..]), q + |s|, t + [0])
    ensures Holds(d[..], q, s + t)
  {
    var c := StrLen(d, q, s);
    StrCpy(d, q + c, m, p, t);
    Concatenated(old(d[..]), q, s, t);
  }

  lemma Concatenated(m: seq<byte>, q: nat, s: seq<byte>, t: seq<byte>)
    requires Holds(m, q, s) && NoNul(t) && q + |s| + |t| < |m|
    ensures Holds(Splice(m, q + |s|, t + [0]), q, s + t)
  {
    var r := Splice(m, q + |s|, t + [0]);
    assert r[q + |s|..q + |s| + |t| + 1] == t + [0];
    assert r[q + |s| + |t|] == r[q + |s|..q + |s| + |t| + 1][|t|];
    assert r[q..q + |s|] == s;
    assert r[q + |s|..q + |s| + |t|] == (t + [0])[..|t|];
    assert r[q..q + |s| + |t|] == r[q..q + |s|] + r[q + |s|..q + |s| + |t|];
  }

  // Memory beyond the end of m, as far as it is readable
  function ByteAt(m: seq<byte>, behind: nat -> byte, i: nat): (b: byte) {
    if i < |m| then m[i] else behind(i - |m|)
  }

  function Span(m: seq<byte>, behind: nat -> byte, p: nat, n: nat): (s: seq<byte>)
    ensures |s| == n && forall i :: 0 <= i < n ==> s[i] == ByteAt(m, behind, p + i)
  {
    seq<byte>(n, i requires 0 <= i < n => ByteAt(m, behind, p + i))
  }

  // strncpy. It copies count bytes whatever they are, also from behind the end of m: inside says
  // whether every byte read was one of m.
  method StrNCpy(d: array<byte>, q: nat, m: array<byte>, p: nat, behind: nat -> byte, count: nat)
    returns (ghost inside: bool)
    requires q + count <= d.Length && (d == m ==> CopiesUp(q, p, count))
    modifies d
    ensures d[..] == Splice(old(d[..]), q, Span(old(m[..]), behind, p, count))
    ensures inside <==> count == 0 || p + count <= m.Length
  {
    ghost var s := Span(m[..], behind, p, count);
    var i := 0;
    inside := true;
    while i < count
      invariant 0 <= i <= count && Copied(d[..], old(d[..]), q, s, i)
      invariant forall k :: p + i <= k < p + count && k < m.Length ==> m[k] == old(m[k])
      invariant inside <==> i == 0 || p + i <= m.Length
    {
      inside := inside && p + i < m.Length;
      d[q + i] := if p + i < m.Length then m[p + i] else behind(p + i - m.Length);
      i := i + 1;
    }
    AllCopied(d[..], old(d[..]), q, s);
  }
}
