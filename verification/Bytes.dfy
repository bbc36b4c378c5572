/** Option and Result, in the shape of Rust's types of the same names. */
module Wrappers {
  datatype Option<+T> = None | Some(value: T)

  datatype Result<+T, +E> = Ok(value: T) | Err(error: E)

  /** One for true, zero for false, for counting. */
  function One(b: bool): nat { if b then 1 else 0 }
}

/** Byte strings, machine integers and the big-endian encoding. */
module Bytes {
  const U64_SIZE: int := 0x1_0000_0000_0000_0000
  const I64_MAX: int := 0x7FFF_FFFF_FFFF_FFFF
  const I64_MIN: int := -0x8000_0000_0000_0000

  type byte = x: int | 0 <= x < 256
  type bytes = seq<byte>
  type u64 = x: int | 0 <= x < U64_SIZE

  /** A 32-byte value: a hash, a commitment or an ABI word. */
  type word = w: bytes | |w| == 32 witness seq(32, _ => 0)

  const ZERO: word := [0, 0, 0, 0, 0, 0, 0, 0, 0, 0, 0, 0, 0, 0, 0, 0,
                       0, 0, 0, 0, 0, 0, 0, 0, 0, 0, 0, 0, 0, 0, 0, 0]

  /** What the router stores: all zeroes stands for absence, so no entry has that value. */
  type entry = w: word | w != ZERO witness assert ZERO[0] == 0; [1] + ZERO[1..]

  function Pow256(n: nat): (r: nat)
    ensures r >= 1
  {
    if n == 0 then 1 else 256 * Pow256(n - 1)
  }

  /** The low `width` bytes of `n`, most significant first. */
  function BigEndian(n: nat, width: nat): (b: bytes)
    ensures |b| == width
  {
    if width == 0 then [] else BigEndian(n / 256, width - 1) + [n % 256]
  }

  function FromBigEndian(b: bytes): nat {
    if b == [] then 0 else 256 * FromBigEndian(b[..|b| - 1]) + b[|b| - 1]
  }

  lemma {:induction false} BigEndianRoundTrip(n: nat, width: nat)
    requires n < Pow256(width)
    ensures FromBigEndian(BigEndian(n, width)) == n
  {
    if width > 0 {
      BigEndianRoundTrip(n / 256, width - 1);
      assert BigEndian(n, width)[..width - 1] == BigEndian(n / 256, width - 1);
    }
  }

  lemma {:induction false} Pow256Monotone(a: nat, b: nat)
    requires a <= b
    ensures Pow256(a) <= Pow256(b)
  {
    if a < b {
      Pow256Monotone(a, b - 1);
    }
  }

  lemma Pow256Of8()
    ensures Pow256(8) == U64_SIZE
  {
    assert Pow256(3) == 0x100_0000 by {
      assert Pow256(1) == 256;
      assert Pow256(2) == 0x1_0000;
    }
    assert Pow256(6) == 0x1_0000_0000_0000 by {
      assert Pow256(4) == 0x1_0000_0000;
      assert Pow256(5) == 0x100_0000_0000;
    }
    assert Pow256(7) == 0x100_0000_0000_0000;
  }

  lemma {:induction false} Pow256Add(a: nat, b: nat)
    ensures Pow256(a + b) == Pow256(a) * Pow256(b)
  {
    if a > 0 {
      Pow256Add(a - 1, b);
      ProductOfThree(256, Pow256(a - 1), Pow256(b));
    }
  }

  lemma ProductOfThree(x: nat, y: nat, z: nat)
    ensures x * (y * z) == (x * y) * z
  {
  }

  const U256_SIZE: int := U64_SIZE * U64_SIZE * U64_SIZE * U64_SIZE

  lemma Pow256Of32()
    ensures Pow256(32) == U256_SIZE
  {
    Pow256Of8();
    Pow256Add(8, 8);
    Pow256Add(16, 16);
  }

  lemma U64FitsWidth(n: u64, width: nat)
    requires 8 <= width
    ensures n < Pow256(width)
  {
    Pow256Of8();
    Pow256Monotone(8, width);
  }

  /** Distinct u64 values have distinct big-endian forms at every width of at least eight bytes. */
  lemma BigEndianInjective(m: u64, n: u64, width: nat)
    requires 8 <= width
    requires BigEndian(m, width) == BigEndian(n, width)
    ensures m == n
  {
    U64FitsWidth(m, width);
    U64FitsWidth(n, width);
    BigEndianRoundTrip(m, width);
    BigEndianRoundTrip(n, width);
  }
}
