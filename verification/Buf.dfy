/** Length-prefixed fields (src/buf.c). */
module Buf {
  import opened Common

  // What is left of a buffer from an offset on.
  function From(s: Bytes, offset: nat): Bytes { if offset <= |s| then s[offset..] else [] }

  // A field with a big-endian length of n bytes in front, and what follows it.
  function Sized(n: nat, s: Bytes): Option<(Bytes, Bytes)> {
    if (n != 1 && n != 2) || |s| < n then None
    else
      var size := BigEndian(s[..n]);
      if n + size > |s| then None else Some((s[n..n + size], s[n + size..]))
  }

  function Prefixed(n: nat, d: Bytes): (r: Bytes)
    requires n == 1 || n == 2
    requires |d| < if n == 1 then 0x100 else 0x10000
  {
    if n == 1 then [|d|] + d else [|d| / 256, |d| % 256] + d
  }

  lemma SizeField(s: Bytes)
    ensures |s| >= 1 ==> BigEndian(s[..1]) == s[0] as int
    ensures |s| >= 2 ==> BigEndian(s[..2]) == s[0] as int * 256 + s[1]
  {
    if |s| >= 1 {
      assert s[..1][..0] == [];
      assert BigEndian(s[..1]) == BigEndian(s[..1][..0]) * 256 + s[0];
    }
    if |s| >= 2 { assert s[..2][..1] == s[..1]; }
  }

  /** parse_to_sized_buffer: fails without reading past the end. */
  method ParseToSizedBuffer(input: Bytes, n: nat, offset: nat) returns (ok: bool, out: Bytes, end: nat)
    ensures match Sized(n, From(input, offset))
            case None => !ok
            case Some((field, rest)) => ok && out == field && From(input, end) == rest && end == |input| - |rest|
  {
    var size: nat;
    out, end := [], offset;
    if offset + n > |input| {
      return false, out, end;
    }
    var left := input[offset..];
    SizeField(left);
    if n == 1 {
      size := input[offset];
    } else if n == 2 {
      size := input[offset] as int * 256 + input[offset + 1];
    } else {
      return false, out, end;
    }
    hide BigEndian;
    end := offset + n;
    if end + size > |input| {
      return false, out, end;
    }
    out := input[end..end + size];
    assert out == left[n..n + size] && input[end + size..] == left[n + size..];
    end := end + size;
    ok := true;
  }

  method PopUint8FromBuffer(input: Bytes, offset: nat) returns (ok: bool, out: byte, end: nat)
    ensures ok <==> From(input, offset) != []
    ensures ok ==> out == From(input, offset)[0] && From(input, end) == From(input, offset)[1..] && end == offset + 1
  {
    if offset + 1 > |input| {
      return false, 0, offset;
    }
    return true, input[offset], offset + 1;
  }

  /** A prefixed field reads back, and what reads is a prefixed field. */
  lemma SizedInvertsPrefixed(n: nat, d: Bytes, rest: Bytes)
    requires (n == 1 && |d| < 0x100) || (n == 2 && |d| < 0x10000)
    ensures Sized(n, Prefixed(n, d) + rest) == Some((d, rest))
  {
    var s := Prefixed(n, d) + rest;
    SizeField(s);
    assert s[n..n + |d|] == d && s[n + |d|..] == rest;
  }

  lemma SizedIsPrefixed(n: nat, s: Bytes)
    requires Sized(n, s).Some?
    ensures var (d, rest) := Sized(n, s).value;
            ((n == 1 && |d| < 0x100) || (n == 2 && |d| < 0x10000)) && s == Prefixed(n, d) + rest
  {
    SizeField(s);
    hide BigEndian;
    var (d, rest) := Sized(n, s).value;
    if n == 1 {
      assert s[..1] == [s[0]] && |d| == s[0] as int;
    } else {
      assert s[..2] == [s[0], s[1]] && |d| == s[0] as int * 256 + s[1];
      assert |d| / 256 == s[0] as int && |d| % 256 == s[1] as int;
    }
    assert Prefixed(n, d) == s[..n] + d;
    hide Prefixed, Sized;
    assert s == s[..n] + d + rest;
  }
}
