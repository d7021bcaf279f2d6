/** The bounded input stream of the nanopb decoder (src/pb_decode.c). */
module PbStream {
  import opened Common
  import opened Pb
  import Varint

  class Stream {
    const source: Bytes
    var state: nat
    var left: nat

    ghost predicate Valid()
      reads this
    {
      state + left <= |source|
    }

    // The bytes still to be read.
    ghost function Rest(): (s: Bytes)
      reads this
      requires Valid()
      ensures |s| == left
    {
      source[state..state + left]
    }

    // Nothing is lost: position and bytes left add up to the same end.
    twostate predicate Conserved()
      reads this
    {
      Valid() && state + left == old(state + left)
    }

    constructor FromBuffer(bytes: Bytes)
      ensures Valid() && source == bytes && state == 0 && Rest() == bytes
    {
      source, state, left := bytes, 0, |bytes|;
    }

    // A stream over the same source, as a structure assignment makes it.
    constructor Copy(from: Stream, size: nat)
      requires from.Valid() && size <= from.left
      ensures Valid() && source == from.source && state == from.state && Rest() == from.Rest()[..size]
    {
      source, state, left := from.source, from.state, size;
      new;
      assert Rest() == from.Rest()[..size];
    }

    /** pb_read: the next `count` bytes, or a refusal that consumes nothing. */
    method Read(count: nat) returns (ok: bool, data: Bytes)
      requires Valid()
      modifies this
      ensures Conserved()
      ensures ok <==> count <= old(left)
      ensures ok ==> data == old(Rest())[..count] && Rest() == old(Rest())[count..]
      ensures !ok ==> Rest() == old(Rest())
    {
      if left < count {
        return false, [];
      }
      data := source[state..state + count];
      state := state + count;
      left := left - count;
      ok := true;
    }

    method ReadByte() returns (ok: bool, b: byte)
      requires Valid()
      modifies this
      ensures Conserved()
      ensures ok <==> old(left) > 0
      ensures ok ==> b == old(Rest())[0] && Rest() == old(Rest())[1..]
      ensures !ok ==> Rest() == old(Rest())
    {
      if left == 0 {
        return false, 0;
      }
      ok, b := true, source[state];
      state := state + 1;
      left := left - 1;
    }

    /** pb_decode_varint32_eof: eof reports a stream that was already empty. */
    method DecodeVarint32Eof() returns (ok: bool, dest: nat, eof: bool)
      requires Valid()
      modifies this
      ensures Conserved()
      ensures ok <==> Varint.Parse32(old(Rest())).Some?
      ensures ok ==> Varint.Parse32(old(Rest())) == Some((dest, Rest()))
      ensures eof <==> old(left) == 0
    {
      hide Varint.Or;
      dest := 0;
      var b;
      ok, b := ReadByte();
      eof := !ok;
      if !ok {
        return;
      }
      if b < 128 {
        dest := b;
        return;
      }
      var bitpos: nat, result: nat := 7, b % 128;
      ghost var goal := Varint.Parse32(old(Rest()));
      while b >= 128
        invariant Conserved() && bitpos % 7 == 0 && bitpos >= 7
        invariant if b >= 128 then Varint.From32(Rest(), bitpos, result) == goal
                  else goal == if bitpos == 35 && b / 16 % 8 != 0 then None else Some((result, Rest()))
        decreases left, b
      {
        ghost var s := Rest();
        ok, b := ReadByte();
        if !ok {
          return;
        }
        if bitpos >= 32 {
          var signExtension := if bitpos < 63 then 0xFF else 1;
          if b % 128 != 0 && (result < TWO_31 || b != signExtension) {
            ok := false;
            return;
          }
        } else {
          result := Varint.Or(result, b, bitpos, TWO_32);
        }
        bitpos := bitpos + 7;
      }
      if bitpos == 35 && b / 16 % 8 != 0 {
        ok := false;
        return;
      }
      dest := result;
    }

    method DecodeVarint32() returns (ok: bool, dest: nat)
      requires Valid()
      modifies this
      ensures Conserved()
      ensures ok <==> Varint.Parse32(old(Rest())).Some?
      ensures ok ==> Varint.Parse32(old(Rest())) == Some((dest, Rest()))
    {
      var eof;
      ok, dest, eof := DecodeVarint32Eof();
    }

    /** pb_decode_varint. */
    method DecodeVarint() returns (ok: bool, dest: nat)
      requires Valid()
      modifies this
      ensures Conserved()
      ensures ok <==> Varint.Parse64(old(Rest())).Some?
      ensures ok ==> Varint.Parse64(old(Rest())) == Some((dest, Rest()))
    {
      hide Varint.Or;
      dest := 0;
      var b: byte, bitpos: nat, result: nat := 128, 0, 0;
      ok := true;
      ghost var goal := Varint.Parse64(old(Rest()));
      while b >= 128
        invariant Conserved() && bitpos % 7 == 0
        invariant if b >= 128 then Varint.From64(Rest(), bitpos, result) == goal else goal == Some((result, Rest()))
        decreases left, b
      {
        if bitpos >= 64 {
          ok := false;
          return;
        }
        ok, b := ReadByte();
        if !ok {
          return;
        }
        result := Varint.Or(result, b, bitpos, TWO_64);
        bitpos := bitpos + 7;
      }
      dest := result;
    }

    method SkipVarint() returns (ok: bool)
      requires Valid()
      modifies this
      ensures Conserved()
      ensures ok <==> Pb.SkipVarint(old(Rest())).Some?
      ensures ok ==> Pb.SkipVarint(old(Rest())) == Some(Rest())
    {
      var b: byte := 128;
      ok := true;
      while b >= 128
        invariant Conserved()
        invariant Pb.SkipVarint(old(Rest())) == if b >= 128 then Pb.SkipVarint(Rest()) else Some(Rest())
        decreases left, b
      {
        var data;
        ok, data := Read(1);
        if !ok {
          return;
        }
        b := data[0];
      }
    }

    /** pb_decode_tag; eof also reports the zero tag that ends a message early. */
    method DecodeTag() returns (ok: bool, wire: nat, tag: nat, eof: bool)
      requires Valid()
      modifies this
      ensures Conserved()
      ensures match Varint.Parse32(old(Rest()))
              case None => !ok && (eof <==> old(left) == 0)
              case Some((key, rest)) =>
                if key == 0 then !ok && eof else ok && tag == key / 8 && wire == key % 8 && Rest() == rest
    {
      wire, tag := 0, 0;
      var temp;
      ok, temp, eof := DecodeVarint32Eof();
      if !ok {
        return;
      }
      if temp == 0 {
        return false, 0, 0, true;
      }
      tag, wire := temp / 8, temp % 8;
    }

    /** pb_skip_field. */
    method SkipField(wire: nat) returns (ok: bool)
      requires Valid()
      modifies this
      ensures Conserved()
      ensures ok <==> Skip(wire, old(Rest())).Some?
      ensures ok ==> Skip(wire, old(Rest())) == Some(Rest())
    {
      var skipped;
      if wire == 0 {
        ok := SkipVarint();
      } else if wire == 1 {
        ok, skipped := Read(8);
      } else if wire == 2 {
        var length;
        ok, length := DecodeVarint32();
        if ok {
          ok, skipped := Read(length);
        }
      } else if wire == 5 {
        ok, skipped := Read(4);
      } else {
        ok := false;
      }
    }

    /** pb_make_string_substream: the next length-delimited block as a stream of its own; the parent
        gives up those bytes but does not move past them yet. */
    method MakeSubstream() returns (ok: bool, sub: Stream)
      requires Valid()
      modifies this
      ensures Valid() && fresh(sub) && sub.Valid() && sub.source == source
      ensures ok <==> Delimited(old(Rest())).Some?
      ensures ok ==> sub.Rest() == Delimited(old(Rest())).value.0
      ensures ok ==> sub.state == state && state + sub.left + left == old(state + left)
      ensures ok ==> source[state + sub.left..state + sub.left + left] == Delimited(old(Rest())).value.1
      ensures !ok ==> Conserved()
    {
      var size;
      ok, size := DecodeVarint32();
      if !ok || left < size {
        ok := false;
        sub := new Stream.FromBuffer(source);
        return;
      }
      sub := new Stream.Copy(this, size);
      ghost var rest := Rest();
      left := left - size;
      assert source[state + size..state + size + left] == rest[size..];
    }

    /** pb_close_string_substream: whatever the reader of the substream left over is skipped, so the
        parent sits exactly behind the declared length. */
    method CloseSubstream(sub: Stream, ghost end: nat)
      requires sub != this && sub.Valid() && sub.source == source && sub.state + sub.left == end
               && end + left <= |source|
      modifies this, sub
      ensures Valid() && state == end && left == old(left) && Rest() == source[end..end + left]
    {
      if sub.left > 0 {
        var ok, data := sub.Read(sub.left);
      }
      state := sub.state;
    }
  }
}
