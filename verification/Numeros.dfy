/** Numbers as the machine stores and sends them: least significant byte first. */
module Numeros {
  import opened Mmu

  /** Low `n` bytes of `v`, least significant first. */
  function Bytes(v: nat, n: nat): (bs: seq<byte>)
    ensures |bs| == n
  {
    if n == 0 then [] else [v % 256] + Bytes(v / 256, n - 1)
  }

  function Entero(bs: seq<byte>): nat
  {
    if bs == [] then 0 else bs[0] + 256 * Entero(bs[1..])
  }

  function Potencia(n: nat): (p: nat)
    ensures p > 0
  {
    if n == 0 then 1 else 256 * Potencia(n - 1)
  }

  lemma {:induction false} EnteroBytes(v: nat, n: nat)
    ensures Entero(Bytes(v, n)) == v % Potencia(n)
  {
    if n > 0 {
      EnteroBytes(v / 256, n - 1);
      assert Bytes(v, n)[1..] == Bytes(v / 256, n - 1);
      RestoPartido(v, Potencia(n - 1));
    }
  }

  lemma RestoPartido(v: nat, p: nat)
    requires p > 0
    ensures v % 256 + 256 * (v / 256 % p) == v % (256 * p)
  {
    var q, r := v / 256, v % 256;
    var k, s := q / p, q % p;
    assert q == k * p + s && v == 256 * q + r;
    assert v == k * (256 * p) + (256 * s + r) by {
      assert 256 * (k * p) == k * (256 * p);
    }
    assert 256 * s + r < 256 * p;
    RestoUnico(v, 256 * p, k, 256 * s + r);
  }

  lemma RestoUnico(v: nat, n: nat, k: nat, r: nat)
    requires n > 0 && v == k * n + r && r < n
    ensures v % n == r
  {
    var q, s := v / n, v % n;
    assert v == q * n + s;
    assert (q - k) * n == q * n - k * n == r - s;
    if q > k {
      Multiplo(q - k, n);
    } else if q < k {
      assert (k - q) * n == s - r;
      Multiplo(k - q, n);
    }
  }

  lemma {:induction false} BytesEntero(bs: seq<byte>)
    ensures Bytes(Entero(bs), |bs|) == bs
  {
    if bs != [] {
      BytesEntero(bs[1..]);
      assert Entero(bs) % 256 == bs[0] && Entero(bs) / 256 == Entero(bs[1..]);
    }
  }

  /** Byte `k` is the `k`-th digit in base 256: the least significant byte goes first. */
  lemma {:induction false} BytesEn(v: nat, n: nat, k: nat)
    requires k < n
    ensures Bytes(v, n)[k] == v / Potencia(k) % 256
  {
    if k > 0 {
      BytesEn(v / 256, n - 1, k - 1);
      assert Bytes(v, n)[k] == Bytes(v / 256, n - 1)[k - 1];
      DivisionPartida(v, Potencia(k - 1));
    }
  }

  lemma DivisionPartida(v: nat, p: nat)
    requires p > 0
    ensures v / 256 / p == v / (256 * p)
  {
    var q := v / 256 / p;
    var r := v - q * (256 * p);
    assert v / 256 == q * p + v / 256 % p;
    assert q * (256 * p) == 256 * (q * p);
    assert 0 <= r < 256 * p;
    assert v == q * (256 * p) + r;
    CocienteUnico(v, 256 * p, q, r);
  }

  lemma CocienteUnico(v: nat, n: nat, q: nat, r: nat)
    requires n > 0 && v == q * n + r && r < n
    ensures v / n == q
  {
    var c, s := v / n, v % n;
    assert v == c * n + s;
    assert (c - q) * n == c * n - q * n == r - s;
    if c > q {
      Multiplo(c - q, n);
    } else if c < q {
      assert (q - c) * n == s - r;
      Multiplo(q - c, n);
    }
  }

  /** One byte and four bytes, as numbers. */
  lemma {:induction false} Pocos(v: nat, bs: seq<byte>)
    ensures var b := Bytes(v, 1); |b| == 1 && b[0] == v % 256
    ensures var b := Bytes(v, 4);
      |b| == 4 && b[0] == v % 256 && b[1] == v / 256 % 256 && b[2] == v / 0x1_0000 % 256 && b[3] == v / 0x100_0000 % 256
    ensures |bs| == 1 ==> Entero(bs) == bs[0]
    ensures |bs| == 4 ==> Entero(bs) == bs[0] as int + 256 * bs[1] as int + 0x1_0000 * bs[2] as int + 0x100_0000 * bs[3] as int
    ensures Potencia(1) == 256 && Potencia(4) == 0x1_0000_0000
  {
    assert Potencia(0) == 1 && Potencia(1) == 256 && Potencia(2) == 0x1_0000 && Potencia(3) == 0x100_0000;
    BytesEn(v, 1, 0);
    BytesEn(v, 4, 0);
    BytesEn(v, 4, 1);
    BytesEn(v, 4, 2);
    BytesEn(v, 4, 3);
    if |bs| == 1 {
      assert bs[1..] == [];
    }
    if |bs| == 4 {
      var c, d := bs[1..], bs[2..];
      assert c[1..] == d && d[1..] == bs[3..] && bs[3..][1..] == [];
      assert Entero(bs[3..]) == bs[3];
      assert Entero(d) == bs[2] as int + 256 * bs[3] as int;
      assert Entero(c) == bs[1] as int + 256 * Entero(d);
    }
  }
}
