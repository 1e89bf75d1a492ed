/** The option type, machine-width limits and the few arithmetic laws that
    several components share. */
module Numbers {

  datatype Option<+T> = None | Some(value: T)

  const MAX_UINT64: nat := 0xFFFF_FFFF_FFFF_FFFF
  const TWO_63: nat := 0x8000_0000_0000_0000
  const TWO_64: nat := 0x1_0000_0000_0000_0000
  const TWO_256: nat := 0x1_0000000000000000_0000000000000000_0000000000000000_0000000000000000
  const MAX_UINT256: nat := TWO_256 - 1

  type uint64 = x: nat | x <= MAX_UINT64

  /** The low 256 bits of an integer: what the ABI packer of go-ethereum keeps
      of a big integer that it writes as a uint256. */
  function Low256(x: int): nat {
    x % TWO_256
  }

  /** Go's conversion of an integer to int64. */
  function Int64(x: int): int {
    (x + TWO_63) % TWO_64 - TWO_63
  }

  function Pow(b: nat, e: nat): nat {
    if e == 0 then 1 else b * Pow(b, e - 1)
  }

  function Max(a: int, b: int): int {
    if a < b then b else a
  }

  lemma {:induction false} PowPositive(b: nat, e: nat)
    requires b > 0
    ensures Pow(b, e) > 0
  {
    if e > 0 {
      PowPositive(b, e - 1);
    }
  }

  lemma Factor(b: nat, x: nat)
    requires b > 0
    ensures x <= b * x
  {
  }

  lemma {:induction false} PowMonotone(b: nat, d: nat, e: nat)
    requires b > 0 && d <= e
    ensures Pow(b, d) <= Pow(b, e)
    decreases e - d
  {
    if d < e {
      PowMonotone(b, d, e - 1);
      Factor(b, Pow(b, e - 1));
    }
  }

  lemma {:induction false} PowAdd(b: nat, d: nat, e: nat)
    ensures Pow(b, d + e) == Pow(b, d) * Pow(b, e)
    decreases e
  {
    if e > 0 {
      PowAdd(b, d, e - 1);
      assert Pow(b, d + e) == b * Pow(b, d + (e - 1));
      assert b * (Pow(b, d) * Pow(b, e - 1)) == Pow(b, d) * (b * Pow(b, e - 1));
    }
  }

  lemma TenToThe24()
    ensures Pow(10, 24) == 1_000_000_000_000_000_000_000_000
  {
    assert Pow(10, 3) == 1_000;
    PowAdd(10, 3, 3);
    PowAdd(10, 6, 6);
    PowAdd(10, 12, 12);
  }

  /** A uint256 has at most 78 decimal digits. */
  lemma PowersOfTen()
    ensures Pow(10, 77) <= MAX_UINT256 < Pow(10, 78)
  {
    TenToThe24();
    PowAdd(10, 24, 24);
    PowAdd(10, 48, 24);
    assert Pow(10, 5) == 100_000;
    PowAdd(10, 72, 5);
    assert Pow(10, 78) == 10 * Pow(10, 77);
  }

  /** 32 bytes hold exactly the 256-bit numbers. */
  lemma BytesOfUint256()
    ensures Pow(256, 32) == TWO_256
  {
    assert Pow(256, 4) == 0x1_0000_0000;
    PowAdd(256, 4, 4);
    PowAdd(256, 8, 8);
    PowAdd(256, 16, 16);
  }

  lemma TwoToThe32()
    ensures Pow(2, 32) == 0x1_0000_0000
  {
    assert Pow(2, 4) == 16;
    PowAdd(2, 4, 4);
    PowAdd(2, 8, 8);
    PowAdd(2, 16, 16);
  }

  /** The limits of Go's and Solidity's integers. */
  lemma IntegerWidths()
    ensures MAX_UINT64 + 1 == TWO_64 == 2 * TWO_63 == Pow(2, 64)
    ensures MAX_UINT256 + 1 == TWO_256 == Pow(2, 256)
  {
    TwoToThe32();
    PowAdd(2, 32, 32);
    PowAdd(2, 64, 64);
    PowAdd(2, 128, 128);
  }

  /** Floor division keeps an at-most comparison exact. */
  lemma AtMostFloor(p: int, x: int, d: int)
    requires d > 0
    ensures p <= x / d <==> p * d <= x
  {
    var q := x / d;
    assert x == q * d + x % d;
    if p <= q {
      assert p * d <= q * d;
    } else {
      assert (q + 1) * d <= p * d;
    }
  }

  lemma FloorMonotone(x: int, y: int, d: int)
    requires d > 0 && x <= y
    ensures x / d <= y / d
  {
    AtMostFloor(x / d, y, d);
    AtMostFloor(x / d, x, d);
  }
}
