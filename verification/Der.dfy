/** DER encoding of an (R, S) signature (src/der.c). */
module Der {
  import opened Common

  // --- the encoding, as sections 8.1.3, 8.3, 8.9 and 10.1 of ITU-T X.690 give it ---

  function Trim(b: Bytes): (t: Bytes)
    ensures |t| <= |b| && (t == [] || t[0] != 0)
  {
    if b != [] && b[0] == 0 then Trim(b[1..]) else b
  }

  // The content octets of a non-negative INTEGER.
  function Content(b: Bytes): (c: Bytes)
    ensures 1 <= |c| <= |b| + 1
  {
    var t := Trim(b);
    if t == [] then [0] else if t[0] >= 0x80 then [0] + t else t
  }

  function Length(n: nat): Option<Bytes> {
    if n < 0x80 then Some([n])
    else if n < 0x100 then Some([0x81, n])
    else if n < 0x10000 then Some([0x82, n / 256, n % 256])
    else None
  }

  function Tagged(tag: byte, content: Bytes): Option<Bytes> {
    match Length(|content|)
    case None => None
    case Some(l) => Some([tag] + l + content)
  }

  function Integer(b: Bytes): (e: Option<Bytes>)
    ensures e.Some? ==> |e.value| >= 3
  {
    Tagged(2, Content(b))
  }

  /** The DER SEQUENCE of the two INTEGERs; None when a length needs more than two octets. */
  function Signature(r: Bytes, s: Bytes): Option<Bytes> {
    match (Integer(r), Integer(s))
    case (Some(a), Some(b)) => Tagged(0x30, a + b)
    case _ => None
  }

  // --- the code ---

  // The value left after skipping leading zero bytes.
  method SkipZeros(val: Bytes) returns (rest: Bytes)
    ensures rest == Trim(val)
  {
    var i := 0;
    while i < |val| && val[i] == 0
      invariant 0 <= i <= |val| && Trim(val) == Trim(val[i..])
    {
      assert val[i..][1..] == val[i + 1..];
      i := i + 1;
    }
    rest := val[i..];
  }

  function LengthSize(len: nat): nat {
    if len < 0x80 then 1 else if len < 0x100 then 2 else if len < 0x10000 then 3 else 0
  }

  method GetEncodedIntegerSize(val: Bytes) returns (size: nat)
    ensures size == match Integer(val) case None => 0 case Some(e) => |e|
  {
    var rest := SkipZeros(val);
    var len := |rest|;
    if len == 0 {
      len := 1;
    } else if rest[0] >= 0x80 {
      len := len + 1;
    }
    var l0 := LengthSize(len);
    if l0 == 0 {
      return 0;
    }
    size := 1 + l0 + len;
  }

  // Nothing outside [p, q) has changed.
  ghost predicate Elsewhere(sig: array<byte>, p: nat, q: nat, was: seq<byte>)
    reads sig
  {
    |was| == sig.Length && forall i :: 0 <= i < sig.Length && !(p <= i < q) ==> sig[i] == was[i]
  }

  // Writing at p, never from end on.
  method Put(sig: array<byte>, p: nat, end: nat, piece: Bytes) returns (ok: bool, q: nat)
    requires p <= end <= sig.Length
    modifies sig
    ensures ok <==> p + |piece| <= end
    ensures ok ==> q == p + |piece| && sig[p..q] == piece
    ensures p <= q <= end && Elsewhere(sig, p, q, old(sig[..]))
  {
    if end - p < |piece| {
      return false, p;
    }
    for i := 0 to |piece|
      invariant sig[p..p + i] == piece[..i]
      invariant Elsewhere(sig, p, p + i, old(sig[..]))
    {
      sig[p + i] := piece[i];
    }
    return true, p + |piece|;
  }

  // Two adjacent pieces make one.
  lemma Adjacent(sig: seq<byte>, p: nat, q: nat, e: nat, a: Bytes, b: Bytes)
    requires p <= q <= e <= |sig| && sig[p..q] == a && sig[q..e] == b
    ensures sig[p..e] == a + b
  {
  }

  method InsertTagAndLength(sig: array<byte>, p: nat, end: nat, tag: byte, len: nat) returns (ok: bool, q: nat)
    requires p <= end <= sig.Length
    modifies sig
    ensures ok <==> Length(len).Some? && p + 1 + |Length(len).value| <= end
    ensures ok ==> q == p + 1 + |Length(len).value| && sig[p..q] == [tag] + Length(len).value
    ensures p <= q <= end && Elsewhere(sig, p, q, old(sig[..]))
  {
    ok, q := Put(sig, p, end, [tag]);
    if !ok || Length(len).None? {
      return false, q;
    }
    ghost var m := q;
    ok, q := Put(sig, q, end, Length(len).value);
    if ok { Adjacent(sig[..], p, m, q, [tag], Length(len).value); }
  }

  method InsertInteger(sig: array<byte>, p: nat, end: nat, val: Bytes) returns (ok: bool, q: nat)
    requires p <= end <= sig.Length
    modifies sig
    ensures ok <==> Integer(val).Some? && p + |Integer(val).value| <= end
    ensures ok ==> q == p + |Integer(val).value| && sig[p..q] == Integer(val).value
    ensures p <= q <= end && Elsewhere(sig, p, q, old(sig[..]))
  {
    var rest := SkipZeros(val);
    var content := if rest == [] then [0] else if rest[0] >= 0x80 then [0] + rest else rest;
    ok, q := InsertTagAndLength(sig, p, end, 2, |content|);
    if !ok {
      return false, q;
    }
    ghost var m, head := q, sig[p..q];
    ok, q := Put(sig, q, end, content);
    assert sig[p..m] == head;
    if ok { Adjacent(sig[..], p, m, q, head, content); }
  }

  /** encode_sig_der: writes the DER signature, or returns 0 exactly when it has none or it does not
      fit in sigLen bytes. */
  method EncodeSigDer(sig: array<byte>, sigLen: nat, r: Bytes, s: Bytes) returns (n: nat)
    requires sigLen <= sig.Length
    modifies sig
    ensures match Signature(r, s)
            case None => n == 0
            case Some(d) => n == if |d| <= sigLen then |d| else 0
    ensures n > 0 ==> sig[..n] == Signature(r, s).value && Elsewhere(sig, 0, n, old(sig[..]))
    ensures Elsewhere(sig, 0, sigLen, old(sig[..]))
  {
    hide Integer, Length;
    var len := 0;
    var l0 := GetEncodedIntegerSize(r);
    if l0 == 0 {
      return 0;
    }
    len := len + l0;
    l0 := GetEncodedIntegerSize(s);
    if l0 == 0 {
      return 0;
    }
    len := len + l0;
    var ok, p := InsertTagAndLength(sig, 0, sigLen, 0x30, len);
    if !ok {
      return 0;
    }
    n := InsertBoth(sig, p, sigLen, r, s);
  }

  // The two INTEGERs behind the header that ends at p.
  method InsertBoth(sig: array<byte>, p: nat, end: nat, r: Bytes, s: Bytes) returns (n: nat)
    requires p <= end <= sig.Length && Integer(r).Some? && Integer(s).Some?
    modifies sig
    ensures n == if p + |Integer(r).value + Integer(s).value| <= end
                 then p + |Integer(r).value + Integer(s).value| else 0
    ensures n > 0 ==> sig[..n] == old(sig[..p]) + (Integer(r).value + Integer(s).value)
    ensures n > 0 ==> Elsewhere(sig, p, n, old(sig[..]))
    ensures Elsewhere(sig, p, end, old(sig[..]))
  {
    hide Integer;
    var ok, m := InsertInteger(sig, p, end, r);
    if !ok {
      return 0;
    }
    ghost var first := sig[p..m];
    var q;
    ok, q := InsertInteger(sig, m, end, s);
    if !ok {
      return 0;
    }
    assert sig[p..m] == first;
    Adjacent(sig[..], p, m, q, first, Integer(s).value);
    Adjacent(sig[..], 0, p, q, old(sig[..p]), first + Integer(s).value);
    n := q;
  }

  // --- a strict decoder, which accepts only the shortest forms ---

  function ParseLength(s: Bytes): Option<(nat, Bytes)> {
    if |s| >= 1 && s[0] < 0x80 then Some((s[0], s[1..]))
    else if |s| >= 2 && s[0] == 0x81 && s[1] >= 0x80 then Some((s[1], s[2..]))
    else if |s| >= 3 && s[0] == 0x82 && s[1] > 0 then
      var n := (s[1] as int) * 256 + s[2] as int;
      Some((n, s[3..]))
    else None
  }

  // The content of one element with the given tag, and what follows it.
  function ParseTagged(tag: byte, s: Bytes): Option<(Bytes, Bytes)> {
    if s == [] || s[0] != tag then None
    else match ParseLength(s[1..])
         case None => None
         case Some((n, rest)) => if n > |rest| then None else Some((rest[..n], rest[n..]))
  }

  // The shortest two's complement form of a non-negative number.
  predicate Minimal(c: Bytes) {
    |c| >= 1 && c[0] < 0x80 && (|c| > 1 && c[0] == 0 ==> c[1] >= 0x80)
  }

  function ParseInteger(s: Bytes): Option<(nat, Bytes)> {
    match ParseTagged(2, s)
    case None => None
    case Some((c, rest)) => if Minimal(c) then Some((BigEndian(c), rest)) else None
  }

  function ParseSignature(s: Bytes): Option<(nat, nat)> {
    match ParseTagged(0x30, s)
    case None => None
    case Some((body, after)) =>
      if after != [] then None else
      match ParseInteger(body)
      case None => None
      case Some((r, rest)) =>
        match ParseInteger(rest)
        case None => None
        case Some((s, end)) => if end == [] then Some((r, s)) else None
  }

  lemma {:induction false} TrimKeepsValue(b: Bytes)
    ensures BigEndian(Trim(b)) == BigEndian(b)
  {
    if b != [] && b[0] == 0 {
      BigEndianLeadingZero(b);
      TrimKeepsValue(b[1..]);
    }
  }

  lemma ContentIsMinimal(b: Bytes)
    ensures Minimal(Content(b)) && BigEndian(Content(b)) == BigEndian(b)
  {
    TrimKeepsValue(b);
    if Trim(b) != [] && Trim(b)[0] >= 0x80 {
      BigEndianLeadingZero([0] + Trim(b));
      assert ([0] + Trim(b))[1..] == Trim(b);
    } else if Trim(b) == [] {
      assert [0][..0] == [];
    }
  }

  // Without leading zeros, a larger number of bytes spells a larger number.
  lemma LongerIsLarger(a: Bytes, b: Bytes)
    requires |a| < |b| && b[0] != 0
    ensures BigEndian(a) < BigEndian(b)
  {
    BigEndianBound(a);
    BigEndianSplit(b[..1], b[1..]);
    assert b == b[..1] + b[1..] && b[..1][..0] == [];
    assert BigEndian(b[..1]) >= 1;
    var k := |b| - 1 - |a|;
    PowAdd(256, |a|, k);
    PowPositive(256, k);
    PowPositive(256, |a|);
    assert Pow(256, |b| - 1) >= Pow(256, |a|) by {
      Grows(Pow(256, |a|), Pow(256, k));
    }
    Grows(Pow(256, |b| - 1), BigEndian(b[..1]));
  }

  lemma Grows(x: nat, k: nat)
    requires k >= 1
    ensures x * k >= x && k * x >= x
  {
  }

  lemma MinimalIsUnique(c: Bytes, b: Bytes)
    requires Minimal(c) && BigEndian(c) == BigEndian(b)
    ensures c == Content(b)
  {
    ContentIsMinimal(b);
    TrimKeepsValue(b);
    TrimKeepsValue(c);
    var x, y := Trim(c), Trim(b);
    if |x| < |y| {
      LongerIsLarger(x, y);
    } else if |y| < |x| {
      LongerIsLarger(y, x);
    }
    BigEndianInjective(x, y);
    assert c == Content(c) by {
      if |c| > 1 && c[0] == 0 {
        assert c == [0] + c[1..];
      } else if c[0] == 0 {
        assert c == [0];
      }
    }
  }

  lemma TaggedParses(tag: byte, c: Bytes, rest: Bytes)
    requires Tagged(tag, c).Some?
    ensures ParseTagged(tag, Tagged(tag, c).value + rest) == Some((c, rest))
  {
    var l := Length(|c|).value;
    var s := Tagged(tag, c).value + rest;
    assert s[1..] == l + (c + rest);
    assert (l + (c + rest))[|l|..] == c + rest;
  }

  lemma ParsedIsTagged(tag: byte, s: Bytes)
    requires ParseTagged(tag, s).Some?
    ensures var (c, rest) := ParseTagged(tag, s).value;
            Tagged(tag, c).Some? && s == Tagged(tag, c).value + rest
  {
    hide Length, ParseLength;
    var (c, rest) := ParseTagged(tag, s).value;
    var (n, after) := ParseLength(s[1..]).value;
    LengthParsed(s[1..]);
    assert after == c + rest && n == |c|;
    var l := Length(n).value;
    assert s == [tag] + s[1..] && [tag] + (l + (c + rest)) == [tag] + l + c + rest;
  }

  lemma LengthParsed(s: Bytes)
    requires ParseLength(s).Some?
    ensures var (n, after) := ParseLength(s).value; Length(n).Some? && s == Length(n).value + after
  {
  }

  /** Decoding gives back the big-endian values of r and s. */
  lemma SignatureParses(r: Bytes, s: Bytes)
    requires Signature(r, s).Some?
    ensures ParseSignature(Signature(r, s).value) == Some((BigEndian(r), BigEndian(s)))
  {
    hide Tagged, ParseTagged, Content, Minimal;
    var a, b := Integer(r).value, Integer(s).value;
    assert Signature(r, s).value == Tagged(0x30, a + b).value + [];
    TaggedParses(0x30, a + b, []);
    TaggedParses(2, Content(r), b);
    assert b == b + [];
    TaggedParses(2, Content(s), []);
    ContentIsMinimal(r);
    ContentIsMinimal(s);
  }

  /** The encoding is canonical: the strict decoder accepts nothing else for these values. */
  lemma SignatureIsUnique(e: Bytes, r: Bytes, s: Bytes)
    requires ParseSignature(e) == Some((BigEndian(r), BigEndian(s)))
    ensures Signature(r, s) == Some(e)
  {
    hide Tagged, ParseTagged, Content, Minimal;
    ParsedIsTagged(0x30, e);
    var (body, after) := ParseTagged(0x30, e).value;
    ParsedIsTagged(2, body);
    var (c, rest) := ParseTagged(2, body).value;
    ParsedIsTagged(2, rest);
    var (d, end) := ParseTagged(2, rest).value;
    MinimalIsUnique(c, r);
    MinimalIsUnique(d, s);
    assert rest == Tagged(2, d).value + [] == Tagged(2, d).value;
    assert e == Tagged(0x30, body).value + [] == Tagged(0x30, body).value;
  }

  /** R and S of 32 bytes always encode, with single-byte lengths, and fit the 76-byte buffer of
      check_tx_signature; the predicted size there is exact. */
  lemma CurveSizedSignature(r: Bytes, s: Bytes)
    requires |r| == 32 && |s| == 32
    ensures Signature(r, s).Some? && Integer(r).Some? && Integer(s).Some?
    ensures |Signature(r, s).value| == |Integer(r).value| + |Integer(s).value| + 2 <= 76
  {
  }

  // The content of a non-negative INTEGER: the number in as few octets as leave its sign bit clear.
  ghost predicate Number(c: Bytes, value: nat) {
    && c != [] && BigEndian(c) == value && c[0] < 128 && (|c| > 1 && c[0] == 0 ==> c[1] >= 128)
  }

  /** Octet by octet: a SEQUENCE of the two numbers as INTEGERs. */
  lemma SignatureOctets(r: Bytes, s: Bytes)
    requires |r| == 32 && |s| == 32
    ensures exists a: Bytes, b: Bytes ::
              && |a| <= 33 && |b| <= 33 && Number(a, BigEndian(r)) && Number(b, BigEndian(s))
              && Signature(r, s) == Some([0x30, |a| + |b| + 4, 2, |a|] + a + [2, |b|] + b)
  {
    var a, b := Content(r), Content(s);
    ContentIsMinimal(r);
    ContentIsMinimal(s);
    hide Content, BigEndian, Tagged;
    var body := ([2, |a|] + a) + ([2, |b|] + b);
    ShortTagged(2, a);
    ShortTagged(2, b);
    ShortTagged(0x30, body);
    assert Signature(r, s) == Some([0x30, |a| + |b| + 4] + body);
    assert [0x30, |a| + |b| + 4] + (([2, |a|] + a) + ([2, |b|] + b))
           == [0x30, |a| + |b| + 4, 2, |a|] + a + [2, |b|] + b;
    assert Number(a, BigEndian(r)) && Number(b, BigEndian(s));
  }

  lemma ShortTagged(tag: byte, content: Bytes)
    requires |content| < 128
    ensures Tagged(tag, content) == Some([tag, |content|] + content)
  {
    assert [tag] + [|content|] + content == [tag, |content|] + content;
  }
}
