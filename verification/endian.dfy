/** Little-endian integers. */
module Endian {
  import opened Order

  /** The low bytes of a number, lowest first. Higher bytes are cut off, as casts to fixed widths do. */
  function LittleEndian(n: nat, width: nat): (r: Bytes)
    ensures |r| == width
  {
    if width == 0 then [] else [(n % 256) as byte] + LittleEndian(n / 256, width - 1)
  }

  function FromLittleEndian(b: Bytes): nat {
    if b == [] then 0 else b[0] as nat + 256 * FromLittleEndian(b[1..])
  }

  function Power256(width: nat): (r: nat)
    ensures r > 0
  {
    if width == 0 then 1 else 256 * Power256(width - 1)
  }

  lemma {:induction false} ReadBack(n: nat, width: nat)
    ensures FromLittleEndian(LittleEndian(n, width)) == n % Power256(width)
  {
    if width == 0 {
      assert n % 1 == 0;
    } else {
      ReadBack(n / 256, width - 1);
      var p := Power256(width - 1);
      DigitsSplit(n, p);
    }
  }

  lemma DigitsSplit(n: nat, p: nat)
    requires p > 0
    ensures n % (256 * p) == n % 256 + 256 * ((n / 256) % p)
  {
    var q, r := n / 256, n % 256;
    assert n == 256 * q + r && q == p * (q / p) + q % p;
    assert n == (256 * p) * (q / p) + (256 * (q % p) + r) by {
      assert 256 * (p * (q / p)) == (256 * p) * (q / p);
    }
    assert 256 * (q % p) + r < 256 * p;
    Remainder(n, 256 * p, q / p, 256 * (q % p) + r);
  }

  lemma Remainder(n: nat, m: nat, q: nat, r: nat)
    requires n == m * q + r && r < m
    ensures n % m == r
  {
    var d := n / m - q;
    assert m * d == r - n % m by { assert m * (n / m) + n % m == m * q + r; }
    assert d > 0 ==> m * d >= m;
    assert d < 0 ==> m * d + m <= 0;
  }

  lemma {:induction false} WriteBack(b: Bytes)
    ensures LittleEndian(FromLittleEndian(b), |b|) == b
    ensures FromLittleEndian(b) < Power256(|b|)
  {
    if b != [] {
      WriteBack(b[1..]);
      var n, high := FromLittleEndian(b), FromLittleEndian(b[1..]);
      assert n == b[0] as nat + 256 * high;
      assert n % 256 == b[0] as nat && n / 256 == high;
      assert b == [b[0]] + b[1..];
    }
  }

  lemma Widths()
    ensures Power256(2) == 0x1_0000 && Power256(4) == 0x1_0000_0000 && Power256(8) == 0x1_0000_0000_0000_0000
  {
    assert Power256(0) == 1 && Power256(1) == 256 && Power256(2) == 0x1_0000 && Power256(3) == 0x100_0000;
    assert Power256(4) == 0x1_0000_0000 && Power256(5) == 0x100_0000_0000 && Power256(6) == 0x1_0000_0000_0000;
    assert Power256(7) == 0x100_0000_0000_0000;
  }
}
