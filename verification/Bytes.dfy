/** Bytes, little-endian numbers and concatenation. */
module Bytes {
  newtype byte = b: int | 0 <= b < 256

  const U16: nat := 0x10000

  function Pow256(w: nat): (p: nat)
    ensures p >= 1
  {
    if w == 0 then 1 else 256 * Pow256(w - 1)
  }

  /** The `w`-byte little-endian representation of `n`. */
  function ToLE(n: nat, w: nat): (s: seq<byte>)
    requires n < Pow256(w)
    ensures |s| == w
  {
    if w == 0 then [] else [(n % 256) as byte] + ToLE(n / 256, w - 1)
  }

  function FromLE(s: seq<byte>): (n: nat)
    ensures n < Pow256(|s|)
  {
    if s == [] then 0 else s[0] as nat + 256 * FromLE(s[1..])
  }

  lemma {:induction false} FromToLE(n: nat, w: nat)
    requires n < Pow256(w)
    ensures FromLE(ToLE(n, w)) == n
  {
    if w > 0 {
      FromToLE(n / 256, w - 1);
      assert ToLE(n, w)[1..] == ToLE(n / 256, w - 1);
    }
  }

  lemma LowByte(b: byte, n: nat)
    ensures ((b as nat + 256 * n) % 256) as byte == b && (b as nat + 256 * n) / 256 == n
  {
  }

  lemma {:induction false} ToFromLE(s: seq<byte>)
    ensures ToLE(FromLE(s), |s|) == s
  {
    if s != [] {
      var rest := FromLE(s[1..]);
      LowByte(s[0], rest);
      ToFromLE(s[1..]);
      assert s == [s[0]] + s[1..];
    }
  }

  /** The last byte is the most significant one. */
  lemma {:induction false} MostSignificantLast(s: seq<byte>, b: byte)
    ensures FromLE(s + [b]) == FromLE(s) + Pow256(|s|) * b as nat
  {
    if s == [] {
      assert [b][1..] == [];
    } else {
      assert (s + [b])[1..] == s[1..] + [b];
      MostSignificantLast(s[1..], b);
      assert Pow256(|s|) * b as nat == 256 * (Pow256(|s| - 1) * b as nat);
    }
  }

  lemma Pow256Two()
    ensures Pow256(2) == U16
  {
    assert Pow256(1) == 256;
  }

  lemma TwoBytesOf(n: nat)
    requires n < U16 == Pow256(2)
    ensures ToLE(n, 2)[0] as nat == n % 256 && ToLE(n, 2)[1] as nat == n / 256
  {
    assert Pow256(1) == 256;
    assert ToLE(n / 256, 1) == [(n / 256 % 256) as byte] + ToLE(n / 256 / 256, 0);
  }

  lemma TwoBytes(s: seq<byte>)
    requires |s| == 2
    ensures FromLE(s) == s[0] as nat + 256 * s[1] as nat
  {
    assert FromLE(s[1..]) == s[1] as nat + 256 * FromLE(s[1..][1..]);
  }

  /** A `uint16` in memory; the argument is cut to 16 bits as a cast to `uint16` does. */
  function U16Bytes(n: nat): (s: seq<byte>)
    ensures |s| == 2
    ensures n < U16 ==> s[0] as nat == n % 256 && s[1] as nat == n / 256
  {
    Pow256Two();
    TwoBytesOf(n % U16);
    ToLE(n % U16, 2)
  }

  function U16Value(s: seq<byte>): (n: nat)
    requires |s| == 2
    ensures n == s[0] as nat + 256 * s[1] as nat < U16
  {
    Pow256Two();
    TwoBytes(s);
    FromLE(s)
  }

  lemma U16RoundTrip(n: nat)
    ensures U16Value(U16Bytes(n)) == n % U16
  {
    Pow256Two();
    FromToLE(n % U16, 2);
  }

  lemma U16Canonical(s: seq<byte>)
    requires |s| == 2
    ensures U16Bytes(U16Value(s)) == s
  {
    Pow256Two();
    assert U16Value(s) % U16 == U16Value(s);
    ToFromLE(s);
  }

  lemma Regroup(a: seq<byte>, b: seq<byte>, c: seq<byte>)
    ensures a + b + c == a + (b + c)
  {
  }

  function Concat(ss: seq<seq<byte>>): seq<byte> {
    if ss == [] then [] else ss[0] + Concat(ss[1..])
  }

  lemma {:induction false} ConcatAppend(a: seq<seq<byte>>, b: seq<seq<byte>>)
    ensures Concat(a + b) == Concat(a) + Concat(b)
  {
    if a == [] {
      assert a + b == b;
    } else {
      assert (a + b)[1..] == a[1..] + b;
      ConcatAppend(a[1..], b);
    }
  }
}
