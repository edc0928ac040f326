// 32-bit register words as their bits, least significant first, with C's bitwise operators.
module BitWords {

  type Bits = w: seq<bool> | |w| == 32
    witness
    [false, false, false, false, false, false, false, false, false, false, false, false, false, false, false,
     false, false, false, false, false, false, false, false, false, false, false, false, false, false, false,
     false, false]

  function Zero(): (w: Bits)
    ensures forall i :: 0 <= i < 32 ==> !w[i]
  {
    seq(32, i => false)
  }

  function All(): (w: Bits)
    ensures forall i :: 0 <= i < 32 ==> w[i]
  {
    seq(32, i => true)
  }

  function One(): (w: Bits)
    ensures forall i :: 0 <= i < 32 ==> w[i] == (i == 0)
  {
    seq(32, i => i == 0)
  }

  function Seven(): (w: Bits)
    ensures forall i :: 0 <= i < 32 ==> w[i] == (i < 3)
  {
    seq(32, i => i < 3)
  }

  function And(a: Bits, b: Bits): (w: Bits)
    ensures forall i :: 0 <= i < 32 ==> w[i] == (a[i] && b[i])
  {
    seq(32, i requires 0 <= i < 32 => a[i] && b[i])
  }

  function Or(a: Bits, b: Bits): (w: Bits)
    ensures forall i :: 0 <= i < 32 ==> w[i] == (a[i] || b[i])
  {
    seq(32, i requires 0 <= i < 32 => a[i] || b[i])
  }

  function Not(a: Bits): (w: Bits)
    ensures forall i :: 0 <= i < 32 ==> w[i] == !a[i]
  {
    seq(32, i requires 0 <= i < 32 => !a[i])
  }

  // a << n
  function Shl(a: Bits, n: nat): (w: Bits)
    ensures forall i :: 0 <= i < 32 ==> w[i] == (i >= n && a[i - n])
  {
    seq(32, i requires 0 <= i < 32 => i >= n && a[i - n])
  }

  // a >> n
  function Shr(a: Bits, n: nat): (w: Bits)
    ensures forall i :: 0 <= i < 32 ==> w[i] == (i + n < 32 && a[i + n])
  {
    seq(32, i requires 0 <= i < 32 => i + n < 32 && a[i + n])
  }

  predicate NonZero(a: Bits) {
    exists i :: 0 <= i < 32 && a[i]
  }
}
