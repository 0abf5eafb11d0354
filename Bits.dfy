/** Integer bit operations as Python performs them on non-negative integers,
    and the little- and big-endian readings of byte strings. */
module Bits {
  import opened Base

  /** `1 << k` */
  function Pow2(k: nat): (r: nat)
    ensures r >= 1
  {
    if k == 0 then 1 else 2 * Pow2(k - 1)
  }

  /** Python's `a | b` on non-negative integers, one bit at a time from the
      least significant end. */
  function Or(a: nat, b: nat): nat
  {
    if a == 0 then b
    else if b == 0 then a
    else 2 * Or(a / 2, b / 2) + (if a % 2 == 1 || b % 2 == 1 then 1 else 0)
  }

  /** When `b` fits below bit `k`, `(a << k) | b` has no overlapping bits and is a sum. */
  lemma {:induction false} OrDisjoint(a: nat, b: nat, k: nat)
    requires b < Pow2(k)
    ensures Or(a * Pow2(k), b) == a * Pow2(k) + b
  {
    if k == 0 {
      assert b == 0;
    } else if a == 0 || b == 0 {
    } else {
      var half := a * Pow2(k - 1);
      assert a * Pow2(k) == 2 * half;
      assert (2 * half) / 2 == half && (2 * half) % 2 == 0;
      OrDisjoint(a, b / 2, k - 1);
    }
  }

  /** 256^n */
  function Pow256(n: nat): (r: nat)
    ensures r >= 1
  {
    if n == 0 then 1 else 256 * Pow256(n - 1)
  }

  /** The unsigned value of `s` read least significant byte first
      (`struct.unpack` of an unsigned format on a little-endian host). */
  function FromLE(s: seq<byte>): (r: nat)
    ensures r < Pow256(|s|)
  {
    if s == [] then 0 else s[0] + 256 * FromLE(s[1..])
  }

  /** The `w` low bytes of `n`, least significant first (`struct.pack` of an
      unsigned format on a little-endian host). */
  function ToLE(n: nat, w: nat): (r: seq<byte>)
    ensures |r| == w
  {
    if w == 0 then [] else [n % 256] + ToLE(n / 256, w - 1)
  }

  /** Writing `n` into `w` bytes and reading them back gives `n` when it fits. */
  lemma {:induction false} FromLEToLE(n: nat, w: nat)
    requires n < Pow256(w)
    ensures FromLE(ToLE(n, w)) == n
  {
    if w > 0 {
      var s := ToLE(n, w);
      assert s[0] == n % 256 && s[1..] == ToLE(n / 256, w - 1);
      FromLEToLE(n / 256, w - 1);
    }
  }

  /** `int.from_bytes(s, 'big')` */
  function FromBE(s: seq<byte>): (r: nat)
    ensures r < Pow256(|s|)
  {
    if s == [] then 0 else FromBE(s[..|s| - 1]) * 256 + s[|s| - 1]
  }
}
