/** Types and small arithmetic shared by every component. */
module Common {
  type byte = x: int | 0 <= x < 256
  type Bytes = seq<byte>

  datatype Option<+T> = None | Some(value: T)

  const TWO_31: int := 0x8000_0000
  const TWO_32: int := 0x1_0000_0000
  const TWO_63: int := 0x8000_0000_0000_0000
  const TWO_64: int := 0x1_0000_0000_0000_0000

  function Min(a: nat, b: nat): nat { if a < b then a else b }

  function Zeros(n: nat): (z: Bytes)
    ensures |z| == n && forall i :: 0 <= i < n ==> z[i] == 0
  {
    seq(n, _ => 0)
  }

  // A char buffer that ends its text by itself.
  predicate Terminated(b: Bytes) { b != [] && b[|b| - 1] == 0 }

  /** The number a byte string spells in big-endian order. */
  function BigEndian(b: Bytes): nat {
    if b == [] then 0 else BigEndian(b[..|b| - 1]) * 256 + b[|b| - 1]
  }

  function Pow(base: nat, e: nat): nat {
    if e == 0 then 1 else base * Pow(base, e - 1)
  }

  lemma {:induction false} PowPositive(base: nat, e: nat)
    requires base > 0
    ensures Pow(base, e) > 0
  {
    if e > 0 { PowPositive(base, e - 1); }
  }

  lemma {:induction false} PowAdd(base: nat, a: nat, b: nat)
    ensures Pow(base, a + b) == Pow(base, a) * Pow(base, b)
  {
    if a > 0 {
      PowAdd(base, a - 1, b);
      calc {
        Pow(base, a + b);
        base * (Pow(base, a - 1) * Pow(base, b));
        base * Pow(base, a - 1) * Pow(base, b);
      }
    }
  }

  /** Splitting a big-endian number at any byte. */
  lemma {:induction false} BigEndianSplit(a: Bytes, b: Bytes)
    ensures BigEndian(a + b) == BigEndian(a) * Pow(256, |b|) + BigEndian(b)
  {
    if b == [] {
      assert a + b == a;
    } else {
      var t := b[..|b| - 1];
      assert (a + b)[..|a + b| - 1] == a + t;
      BigEndianSplit(a, t);
      calc {
        BigEndian(a + b);
        (BigEndian(a) * Pow(256, |t|) + BigEndian(t)) * 256 + b[|b| - 1];
        BigEndian(a) * Pow(256, |t|) * 256 + BigEndian(b);
        { assert Pow(256, |b|) == 256 * Pow(256, |t|); }
        BigEndian(a) * Pow(256, |b|) + BigEndian(b);
      }
    }
  }

  lemma {:induction false} BigEndianBound(b: Bytes)
    ensures BigEndian(b) < Pow(256, |b|)
  {
    if b != [] {
      BigEndianBound(b[..|b| - 1]);
      assert Pow(256, |b|) == 256 * Pow(256, |b| - 1);
    }
  }

  /** Leading zero bytes add nothing. */
  lemma {:induction false} BigEndianLeadingZero(b: Bytes)
    requires b != [] && b[0] == 0
    ensures BigEndian(b) == BigEndian(b[1..])
  {
    BigEndianSplit(b[..1], b[1..]);
    assert b == b[..1] + b[1..];
    assert b[..1][..0] == [];
    assert BigEndian(b[..1]) == BigEndian(b[..1][..0]) * 256 + 0;
  }

  /** Byte strings of one length are determined by the number they spell. */
  lemma {:induction false} BigEndianInjective(a: Bytes, b: Bytes)
    requires |a| == |b| && BigEndian(a) == BigEndian(b)
    ensures a == b
  {
    if a != [] {
      var n := |a| - 1;
      BigEndianInjective(a[..n], b[..n]);
      assert a == a[..n] + [a[n]] && b == b[..n] + [b[n]];
    }
  }
}
