/** Powers of two, and two's-complement integers of 32 and 64 bits as values of unbounded integers. */
module MachineInt {

  function Pow2(n: nat): (r: nat)
    ensures r > 0
  {
    if n == 0 then 1 else 2 * Pow2(n - 1)
  }

  const TWO63: int := 0x8000_0000_0000_0000
  const TWO64: int := 0x1_0000_0000_0000_0000

  function Wrap64(v: int): (r: int)
    ensures -TWO63 <= r < TWO63
    ensures -TWO63 <= v < TWO63 ==> r == v
  {
    (v + TWO63) % TWO64 - TWO63
  }

  function Wrap32(v: int): (r: int)
    ensures -0x8000_0000 <= r < 0x8000_0000
    ensures -0x8000_0000 <= v < 0x8000_0000 ==> r == v
  {
    (v + 0x8000_0000) % 0x1_0000_0000 - 0x8000_0000
  }

  lemma {:induction false} WrapSum(a: int, b: int)
    ensures Wrap64(Wrap64(a) + Wrap64(b)) == Wrap64(a + b)
  {
    var p, q := (a + TWO63) / TWO64, (b + TWO63) / TWO64;
    assert Wrap64(a) == a - p * TWO64 && Wrap64(b) == b - q * TWO64;
    WrapPeriod(a + b, -p - q);
  }

  lemma {:induction false} WrapPeriod(v: int, m: int)
    ensures Wrap64(v + m * TWO64) == Wrap64(v)
  {
    var x := v + TWO63;
    assert x + m * TWO64 == TWO64 * (x / TWO64 + m) + x % TWO64;
  }
}
