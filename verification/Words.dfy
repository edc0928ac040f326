// Machine words of the AM335x: bytes, 32-bit words, and the C conversions to 16 bits.
module Words {

  datatype Option<+T> = None | Some(value: T)

  const TWO16: nat := 0x1_0000
  const TWO32: nat := 0x1_0000_0000

  type byte = x: int | 0 <= x < 256
  type word = x: int | 0 <= x < 0x1_0000_0000

  // (unsigned short)x
  function U16(x: int): (r: nat) {
    x % TWO16
  }

  // x assigned to a signed short
  function S16(x: int): (r: int) {
    if U16(x) < 0x8000 then U16(x) else U16(x) - TWO16
  }

  // s with the stretch starting at p replaced by d
  function Splice<T>(s: seq<T>, p: nat, d: seq<T>): (r: seq<T>)
    requires p + |d| <= |s|
    ensures |r| == |s|
    ensures r[p..p + |d|] == d
    ensures forall i :: 0 <= i < |s| && !(p <= i < p + |d|) ==> r[i] == s[i]
  {
    s[..p] + d + s[p + |d|..]
  }
}
