/** The decoder itself: the circular field iterator and decoding into a struct in memory
    (src/pb_common.c, src/pb_decode.c). */
module PbDecoder {
  import opened Common
  import opened Pb
  import opened PbStream

  // --- layout ---

  lemma {:induction false} OffsetsGrow(t: Table, i: nat, j: nat)
    requires i < j < |t|
    ensures Offset(t, i) + t[i].size <= Offset(t, j)
  {
    if i < j - 1 { OffsetsGrow(t, i, j - 1); }
  }

  lemma OffsetInside(t: Table, i: nat)
    requires i < |t|
    ensures Offset(t, i) + t[i].size <= Size(t)
  {
    if i < |t| - 1 { OffsetsGrow(t, i, |t| - 1); }
  }

  /** pb_field_iter_t: the position in the table, and the address of that field in the struct, kept up
      incrementally. */
  class FieldIter {
    const start: Table
    const base: nat
    var pos: nat
    var data: nat

    ghost predicate Valid()
      reads this
    {
      WellFormed(start) && pos < |start| && data == base + Offset(start, pos)
    }

    constructor Begin(t: Table, dest: nat)
      requires WellFormed(t)
      ensures Valid() && start == t && base == dest && pos == 0
    {
      start, base, pos, data := t, dest, 0, dest + t[0].gap;
    }

    /** Advances to the next field; past the last one it wraps to the first and says so. */
    method Next() returns (more: bool)
      requires Valid()
      modifies this
      ensures Valid() && pos == if old(pos) + 1 < |start| then old(pos) + 1 else 0
      ensures more <==> old(pos) + 1 < |start|
    {
      var prev := pos;
      pos := pos + 1;
      if pos == |start| {
        pos, data := 0, base + start[0].gap;
        return false;
      }
      data := data + start[prev].size + start[pos].gap;
      more := true;
    }

    /** pb_field_iter_find, from wherever an earlier search left the iterator: true exactly when the
        table has the tag, and then the iterator is at that field and holds its address. */
    method Find(tag: nat) returns (found: bool)
      requires Valid()
      modifies this
      ensures Valid()
      ensures found <==> Pb.Find(start, tag).Some?
      ensures found ==> Pb.Find(start, tag) == Some(pos) && data == base + Offset(start, pos)
      ensures !found ==> pos == old(pos)
    {
      hide WellFormed, Offset;
      var first := pos;
      if start[pos].tag == tag {
        OnlyOne(start, pos);
        return true;
      }
      var more := Next();
      while pos != first
        invariant Valid() && first < |start|
        invariant forall i :: 0 <= i < |start| && Passed(first, pos, i) ==> start[i].tag != tag
        decreases if pos > first then |start| + first - pos else first - pos
      {
        if start[pos].tag == tag {
          OnlyOne(start, pos);
          return true;
        }
        more := Next();
      }
      assert forall i :: 0 <= i < |start| ==> Passed(first, pos, i);
      found := false;
    }
  }

  // The fields a walk from `first` has left behind when it stands at pos.
  predicate Passed(first: nat, pos: nat, i: nat) {
    if pos > first then first <= i < pos else first <= i || i < pos
  }

  lemma OnlyOne(t: Table, i: nat)
    requires WellFormed(t) && i < |t|
    ensures Pb.Find(t, t[i].tag) == Some(i)
  {
  }

  // --- memory ---

  // n bytes of the memory from an address on.
  function Slice(mem: Bytes, addr: nat, n: nat): (b: Bytes)
    ensures |b| == n
  {
    if addr + n <= |mem| then mem[addr..addr + n] else Zeros(n)
  }

  function Little16(b: Bytes): nat
    requires |b| == 2
  {
    b[0] as int + 0x100 * (b[1] as int)
  }

  function Little32(b: Bytes): nat
    requires |b| == 4
  {
    b[0] as int + 0x100 * (b[1] as int) + 0x1_0000 * (b[2] as int) + 0x100_0000 * (b[3] as int)
  }

  /** The value a field at an address holds: a char array; a two-byte size and a byte array; a four-byte
      integer; a struct. */
  function LoadField(mem: Bytes, addr: nat, f: Field): Val
    decreases f
  {
    match f.kind
    case KString(cap) => VString(Slice(mem, addr, cap))
    case KBytes(cap) => VBytes(Little16(Slice(mem, addr, 2)), Slice(mem, addr + 2, cap))
    case KUint32 => VUint(Little32(Slice(mem, addr, 4)))
    case KMessage(sub) => VMsg(Load(mem, addr, sub))
  }

  /** The message a struct at `base` holds. */
  function Load(mem: Bytes, base: nat, t: Table): (m: Message)
    ensures |m| == |t|
    decreases t
  {
    seq(|t|, i requires 0 <= i < |t| => LoadField(mem, base + Offset(t, i), t[i]))
  }

  // The two memories hold the same in [lo, hi).
  ghost predicate SameIn(a: Bytes, b: Bytes, lo: nat, hi: nat) {
    |a| == |b| && forall x :: lo <= x < hi && x < |a| ==> a[x] == b[x]
  }

  ghost predicate SameOutside(a: Bytes, b: Bytes, lo: nat, hi: nat) {
    |a| == |b| && forall x :: 0 <= x < |a| && !(lo <= x < hi) ==> a[x] == b[x]
  }

  lemma FieldOf(t: Table, i: nat)
    requires WellFormed(t) && i < |t|
    ensures WellFormedField(t[i]) && Holds(t[i].kind, t[i].size) && t[i].size < 0x10000
  {
  }

  lemma SliceSame(a: Bytes, b: Bytes, lo: nat, hi: nat, addr: nat, n: nat)
    requires SameIn(a, b, lo, hi) && lo <= addr && addr + n <= hi
    ensures Slice(a, addr, n) == Slice(b, addr, n)
  {
  }

  lemma {:induction false} LoadFieldSame(a: Bytes, b: Bytes, addr: nat, f: Field)
    requires Holds(f.kind, f.size) && WellFormedField(f) && SameIn(a, b, addr, addr + f.size)
    ensures LoadField(a, addr, f) == LoadField(b, addr, f)
    decreases f
  {
    hide Slice, SameIn;
    match f.kind
    case KString(cap) => SliceSame(a, b, addr, addr + f.size, addr, cap);
    case KBytes(cap) =>
      SliceSame(a, b, addr, addr + f.size, addr, 2);
      SliceSame(a, b, addr, addr + f.size, addr + 2, cap);
    case KUint32 => SliceSame(a, b, addr, addr + f.size, addr, 4);
    case KMessage(sub) =>
      Narrower(a, b, addr, addr + f.size, addr + Size(sub));
      LoadSame(a, b, addr, sub);
  }

  lemma Narrower(a: Bytes, b: Bytes, lo: nat, hi: nat, end: nat)
    requires SameIn(a, b, lo, hi) && end <= hi
    ensures SameIn(a, b, lo, end)
  {
  }

  lemma {:induction false} LoadSame(a: Bytes, b: Bytes, base: nat, t: Table)
    requires WellFormed(t) && SameIn(a, b, base, base + Size(t))
    ensures Load(a, base, t) == Load(b, base, t)
    decreases t
  {
    hide WellFormed, Offset, Size, LoadField, WellFormedField, Holds;
    forall i | 0 <= i < |t|
      ensures LoadField(a, base + Offset(t, i), t[i]) == LoadField(b, base + Offset(t, i), t[i])
    {
      OffsetInside(t, i);
      FieldOf(t, i);
      LoadFieldSame(a, b, base + Offset(t, i), t[i]);
    }
  }

  /** Writing inside one field of a struct changes that field of the message and no other. */
  lemma LoadUpdated(a: Bytes, b: Bytes, base: nat, t: Table, i: nat)
    requires WellFormed(t) && i < |t|
    requires SameOutside(a, b, base + Offset(t, i), base + Offset(t, i) + t[i].size)
    ensures Load(b, base, t) == Load(a, base, t)[i := LoadField(b, base + Offset(t, i), t[i])]
  {
    hide WellFormed, Offset, Size, LoadField, WellFormedField, Holds;
    forall j | 0 <= j < |t| && j != i
      ensures LoadField(b, base + Offset(t, j), t[j]) == LoadField(a, base + Offset(t, j), t[j])
    {
      FieldOf(t, j);
      if j < i { OffsetsGrow(t, j, i); } else { OffsetsGrow(t, i, j); }
      LoadFieldSame(a, b, base + Offset(t, j), t[j]);
    }
  }

  lemma SameOutsideTrans(a: Bytes, b: Bytes, c: Bytes, lo: nat, hi: nat, lo2: nat, hi2: nat)
    requires SameOutside(a, b, lo, hi) && SameOutside(b, c, lo2, hi2) && lo <= lo2 && hi2 <= hi
    ensures SameOutside(a, c, lo, hi)
  {
  }

  // --- writing ---

  // The bytes written at an address, and nothing else.
  method Put(mem: array<byte>, addr: nat, data: Bytes)
    requires addr + |data| <= mem.Length
    modifies mem
    ensures Slice(mem[..], addr, |data|) == data && SameOutside(old(mem[..]), mem[..], addr, addr + |data|)
  {
    for i := 0 to |data|
      invariant forall j :: 0 <= j < i ==> mem[addr + j] == data[j]
      invariant forall x :: 0 <= x < mem.Length && !(addr <= x < addr + i) ==> mem[x] == old(mem[x])
    {
      mem[addr + i] := data[i];
    }
    assert mem[..][addr..addr + |data|] == data;
  }

  function ToLittle16(x: nat): (b: Bytes)
    requires x < 0x1_0000
    ensures |b| == 2
  {
    [x % 0x100, x / 0x100]
  }

  function ToLittle32(x: nat): (b: Bytes)
    requires x < TWO_32
    ensures |b| == 4
  {
    [x % 0x100, x / 0x100 % 0x100, x / 0x1_0000 % 0x100, x / 0x100_0000]
  }

  lemma LittleBack(x: nat)
    ensures x < 0x1_0000 ==> Little16(ToLittle16(x)) == x
    ensures x < TWO_32 ==> Little32(ToLittle32(x)) == x
  {
    var y := x / 0x100;
    var z := y / 0x100;
    assert x / 0x1_0000 == z && x / 0x100_0000 == z / 0x100;
  }

  // --- defaults ---

  method SetFieldToDefault(f: Field, mem: array<byte>, addr: nat)
    requires WellFormedField(f) && Holds(f.kind, f.size) && addr + f.size <= mem.Length
    modifies mem
    ensures LoadField(mem[..], addr, f) == ZeroVal(f)
    ensures SameOutside(old(mem[..]), mem[..], addr, addr + f.size)
    decreases f, 0
  {
    match f.kind
    case KMessage(sub) =>
      SetToDefaults(sub, mem, addr);
    case _ =>
      Put(mem, addr, Zeros(f.size));
      ZerosLoaded(mem[..], addr, f);
  }

  lemma ZerosLoaded(mem: Bytes, addr: nat, f: Field)
    requires !f.kind.KMessage? && Holds(f.kind, f.size) && addr + f.size <= |mem|
             && Slice(mem, addr, f.size) == Zeros(f.size)
    ensures LoadField(mem, addr, f) == ZeroVal(f)
  {
    forall k | addr <= k < addr + f.size
      ensures mem[k] == 0
    {
      assert mem[k] == Slice(mem, addr, f.size)[k - addr];
    }
    match f.kind
    case KString(cap) => assert Slice(mem, addr, cap) == Zeros(cap);
    case KBytes(cap) => assert Slice(mem, addr + 2, cap) == Zeros(cap);
    case KUint32 =>
  }

  /** pb_message_set_to_defaults. */
  method SetToDefaults(t: Table, mem: array<byte>, base: nat)
    requires WellFormed(t) && base + Size(t) <= mem.Length
    modifies mem
    ensures Load(mem[..], base, t) == ZeroMessage(t)
    ensures SameOutside(old(mem[..]), mem[..], base, base + Size(t))
    decreases t, 1
  {
    hide WellFormed, Offset, Size, LoadField, WellFormedField, Holds, ZeroVal, SameOutside, Load;
    SameRefl(mem[..], base, base + Size(t));
    var iter := new FieldIter.Begin(t, base);
    var more := true;
    while more
      invariant iter.Valid() && iter.start == t && iter.base == base && fresh(iter)
      invariant forall j :: 0 <= j < (if more then iter.pos else |t|) ==> Load(mem[..], base, t)[j] == ZeroVal(t[j])
      invariant SameOutside(old(mem[..]), mem[..], base, base + Size(t))
      decreases if more then |t| - iter.pos else 0
    {
      var i := iter.pos;
      FieldOf(t, i);
      OffsetInside(t, i);
      ghost var before := mem[..];
      SetFieldToDefault(t[i], mem, iter.data);
      LoadUpdated(before, mem[..], base, t, i);
      SameOutsideTrans(old(mem[..]), before, mem[..], base, base + Size(t), iter.data, iter.data + t[i].size);
      more := iter.Next();
    }
  }

  lemma SameRefl(a: Bytes, lo: nat, hi: nat)
    ensures SameOutside(a, a, lo, hi)
  {
  }

  lemma Wider(a: Bytes, b: Bytes, lo: nat, hi: nat, lo2: nat, hi2: nat)
    requires SameOutside(a, b, lo2, hi2) && lo <= lo2 && hi2 <= hi
    ensures SameOutside(a, b, lo, hi)
  {
  }

  // --- decoding ---

  /** decode_static_field with the field decoders: the value at addr becomes what the specification
      says, and nothing outside the field is written, whether it succeeds or fails. */
  method DecodeStaticField(stream: Stream, f: Field, mem: array<byte>, addr: nat) returns (ok: bool)
    requires stream.Valid() && WellFormedField(f) && Holds(f.kind, f.size) && f.size < 0x10000
    requires addr + f.size <= mem.Length && Fits(f, LoadField(mem[..], addr, f))
    modifies stream, mem
    ensures stream.Conserved()
    ensures ok <==> DecodeField(f, old(stream.Rest()), old(LoadField(mem[..], addr, f))).Some?
    ensures ok ==> DecodeField(f, old(stream.Rest()), old(LoadField(mem[..], addr, f)))
                   == Some((LoadField(mem[..], addr, f), stream.Rest()))
    ensures SameOutside(old(mem[..]), mem[..], addr, addr + f.size)
    decreases stream.left, 1
  {
    hide WellFormed, Offset, DecodeFields, Conforms, Load;
    match f.kind
    case KUint32 =>
      ok := DecodeUvarint(stream, f, mem, addr);
    case KString(cap) =>
      ok := DecodeString(stream, f, mem, addr);
    case KBytes(cap) =>
      ok := DecodeBytes(stream, f, mem, addr);
    case KMessage(sub) =>
      ok := DecodeSubmessage(stream, f, mem, addr);
  }

  // pb_dec_uvarint on four bytes: the low half is stored, then compared.
  method DecodeUvarint(stream: Stream, f: Field, mem: array<byte>, addr: nat) returns (ok: bool)
    requires stream.Valid() && f.kind.KUint32? && f.size == 4 && addr + 4 <= mem.Length
    requires Fits(f, LoadField(mem[..], addr, f))
    modifies stream, mem
    ensures stream.Conserved()
    ensures ok <==> DecodeField(f, old(stream.Rest()), old(LoadField(mem[..], addr, f))).Some?
    ensures ok ==> DecodeField(f, old(stream.Rest()), old(LoadField(mem[..], addr, f)))
                   == Some((LoadField(mem[..], addr, f), stream.Rest()))
    ensures SameOutside(old(mem[..]), mem[..], addr, addr + 4)
  {
    hide Slice, Little32, ToLittle32, SameOutside;
    SameRefl(mem[..], addr, addr + 4);
    var value;
    ok, value := stream.DecodeVarint();
    if !ok {
      return;
    }
    var clamped := value % TWO_32;
    LittleBack(clamped);
    Put(mem, addr, ToLittle32(clamped));
    ok := clamped == value;
  }

  // pb_dec_string: the terminator is written even where reading has failed.
  method DecodeString(stream: Stream, f: Field, mem: array<byte>, addr: nat) returns (ok: bool)
    requires stream.Valid() && f.kind.KString? && Holds(f.kind, f.size) && addr + f.size <= mem.Length
    requires Fits(f, LoadField(mem[..], addr, f))
    modifies stream, mem
    ensures stream.Conserved()
    ensures ok <==> DecodeField(f, old(stream.Rest()), old(LoadField(mem[..], addr, f))).Some?
    ensures ok ==> DecodeField(f, old(stream.Rest()), old(LoadField(mem[..], addr, f)))
                   == Some((LoadField(mem[..], addr, f), stream.Rest()))
    ensures SameOutside(old(mem[..]), mem[..], addr, addr + f.size)
  {
    SameRefl(mem[..], addr, addr + f.size);
    hide Slice, SameOutside;
    var size, data;
    ok, size := stream.DecodeVarint32();
    if !ok {
      return;
    }
    if size + 1 > f.size {
      return false;
    }
    ok, data := stream.Read(size);
    ghost var was := mem[..];
    if !ok {
      Put(mem, addr + size, [0]);
      Wider(was, mem[..], addr, addr + f.size, addr + size, addr + size + 1);
      return;
    }
    Put(mem, addr, data);
    ghost var written := mem[..];
    Put(mem, addr + size, [0]);
    StringPut(was, written, mem[..], addr, f.size, data);
  }

  lemma StringPut(was: Bytes, mid: Bytes, mem: Bytes, addr: nat, cap: nat, data: Bytes)
    requires |data| + 1 <= cap && addr + cap <= |was|
    requires Slice(mid, addr, |data|) == data && SameOutside(was, mid, addr, addr + |data|)
    requires Slice(mem, addr + |data|, 1) == [0] && SameOutside(mid, mem, addr + |data|, addr + |data| + 1)
    ensures Slice(mem, addr, cap) == Over(data + [0], Slice(was, addr, cap)) && SameOutside(was, mem, addr, addr + cap)
  {
    assert forall k :: 0 <= k < |data| ==> mid[addr + k] == Slice(mid, addr, |data|)[k];
    assert mem[addr + |data|] == Slice(mem, addr + |data|, 1)[0];
  }

  // pb_dec_bytes: the size is stored before the bytes are read.
  method DecodeBytes(stream: Stream, f: Field, mem: array<byte>, addr: nat) returns (ok: bool)
    requires stream.Valid() && f.kind.KBytes? && Holds(f.kind, f.size) && f.size < 0x10000
             && addr + f.size <= mem.Length
    requires Fits(f, LoadField(mem[..], addr, f))
    modifies stream, mem
    ensures stream.Conserved()
    ensures ok <==> DecodeField(f, old(stream.Rest()), old(LoadField(mem[..], addr, f))).Some?
    ensures ok ==> DecodeField(f, old(stream.Rest()), old(LoadField(mem[..], addr, f)))
                   == Some((LoadField(mem[..], addr, f), stream.Rest()))
    ensures SameOutside(old(mem[..]), mem[..], addr, addr + f.size)
  {
    SameRefl(mem[..], addr, addr + f.size);
    hide Slice, SameOutside, Little16, ToLittle16;
    var size, data;
    ok, size := stream.DecodeVarint32();
    if !ok {
      return;
    }
    if 2 + size > f.size {
      return false;
    }
    LittleBack(size);
    ghost var was := mem[..];
    Put(mem, addr, ToLittle16(size));
    ghost var mid := mem[..];
    Wider(was, mid, addr, addr + f.size, addr, addr + 2);
    ok, data := stream.Read(size);
    if !ok {
      return;
    }
    Put(mem, addr + 2, data);
    BytesPut(was, mid, mem[..], addr, f.kind.cap, ToLittle16(size), data);
  }

  lemma BytesPut(was: Bytes, mid: Bytes, mem: Bytes, addr: nat, cap: nat, size: Bytes, data: Bytes)
    requires |data| <= cap && addr + 2 + cap <= |was| && |size| == 2
    requires Slice(mid, addr, 2) == size && SameOutside(was, mid, addr, addr + 2)
    requires Slice(mem, addr + 2, |data|) == data && SameOutside(mid, mem, addr + 2, addr + 2 + |data|)
    ensures Slice(mem, addr, 2) == size && Slice(mem, addr + 2, cap) == Over(data, Slice(was, addr + 2, cap))
    ensures SameOutside(was, mem, addr, addr + 2 + cap)
  {
    assert mid[addr] == Slice(mid, addr, 2)[0] && mid[addr + 1] == Slice(mid, addr, 2)[1];
    forall k | 0 <= k < |data|
      ensures Slice(mem, addr + 2, cap)[k] == data[k]
    {
      assert Slice(mem, addr + 2, |data|)[k] == mem[addr + 2 + k];
    }
  }

  /** pb_dec_submessage. */
  method DecodeSubmessage(stream: Stream, f: Field, mem: array<byte>, addr: nat) returns (ok: bool)
    requires stream.Valid() && WellFormedField(f) && Holds(f.kind, f.size) && f.kind.KMessage?
    requires addr + f.size <= mem.Length && Fits(f, LoadField(mem[..], addr, f))
    modifies stream, mem
    ensures stream.Conserved()
    ensures ok <==> DecodeField(f, old(stream.Rest()), old(LoadField(mem[..], addr, f))).Some?
    ensures ok ==> DecodeField(f, old(stream.Rest()), old(LoadField(mem[..], addr, f)))
                   == Some((LoadField(mem[..], addr, f), stream.Rest()))
    ensures SameOutside(old(mem[..]), mem[..], addr, addr + f.size)
    decreases stream.left, 0
  {
    hide WellFormed, Offset, DecodeFields, Conforms, Load, Delimited, Size, SameOutside;
    SameRefl(mem[..], addr, addr + f.size);
    var made, sub := stream.MakeSubstream();
    if !made {
      return false;
    }
    ghost var end, was := sub.state + sub.left, mem[..];
    assert sub.left < old(stream.left);
    ok := DecodeNoinit(sub, f.kind.sub, mem, addr);
    Wider(was, mem[..], addr, addr + f.size, addr, addr + Size(f.kind.sub));
    stream.CloseSubstream(sub, end);
  }

  /** pb_decode_noinit: succeeds exactly when the specification does, leaves the specified message in
      the struct and touches nothing around it. */
  method DecodeNoinit(stream: Stream, t: Table, mem: array<byte>, base: nat) returns (ok: bool)
    requires stream.Valid() && WellFormed(t) && base + Size(t) <= mem.Length && Conforms(t, Load(mem[..], base, t))
    modifies stream, mem
    ensures stream.Conserved()
    ensures ok <==> DecodeFields(t, old(stream.Rest()), old(Load(mem[..], base, t))).Some?
    ensures ok ==> DecodeFields(t, old(stream.Rest()), old(Load(mem[..], base, t))) == Some(Load(mem[..], base, t))
    ensures SameOutside(old(mem[..]), mem[..], base, base + Size(t))
    decreases stream.left, 2
  {
    hide WellFormed, Offset, Size, LoadField, WellFormedField, Holds, SameOutside, Load, DecodeField, Skip, Fits;
    SameRefl(mem[..], base, base + Size(t));
    var iter := new FieldIter.Begin(t, base);
    ghost var goal := DecodeFields(t, stream.Rest(), Load(mem[..], base, t));
    while stream.left > 0
      invariant iter.Valid() && iter.start == t && iter.base == base && fresh(iter)
      invariant stream.Conserved() && Conforms(t, Load(mem[..], base, t))
      invariant DecodeFields(t, stream.Rest(), Load(mem[..], base, t)) == goal
      invariant SameOutside(old(mem[..]), mem[..], base, base + Size(t))
      decreases stream.left
    {
      var wire, tag, eof;
      ok, wire, tag, eof := stream.DecodeTag();
      if !ok {
        return eof;
      }
      var found := iter.Find(tag);
      if !found {
        ok := stream.SkipField(wire);
        if !ok {
          return;
        }
        continue;
      }
      var i := iter.pos;
      FieldOf(t, i);
      OffsetInside(t, i);
      LoadAt(mem[..], base, t, i);
      ghost var before := mem[..];
      ok := DecodeStaticField(stream, t[i], mem, iter.data);
      LoadUpdated(before, mem[..], base, t, i);
      SameOutsideTrans(old(mem[..]), before, mem[..], base, base + Size(t), iter.data, iter.data + t[i].size);
      if !ok {
        return;
      }
    }
    ok := true;
  }

  lemma LoadAt(mem: Bytes, base: nat, t: Table, i: nat)
    requires i < |t|
    ensures Load(mem, base, t)[i] == LoadField(mem, base + Offset(t, i), t[i])
  {
    hide Offset, LoadField;
  }

  /** pb_decode: whatever the struct held before, it ends up holding the decoded message. */
  method PbDecode(stream: Stream, t: Table, mem: array<byte>, base: nat) returns (ok: bool)
    requires stream.Valid() && WellFormed(t) && base + Size(t) <= mem.Length
    modifies stream, mem
    ensures stream.Conserved()
    ensures ok <==> Decode(t, old(stream.Rest())).Some?
    ensures ok ==> Decode(t, old(stream.Rest())) == Some(Load(mem[..], base, t))
    ensures SameOutside(old(mem[..]), mem[..], base, base + Size(t))
  {
    hide WellFormed, SameOutside, Load, DecodeFields, Size;
    SetToDefaults(t, mem, base);
    ghost var before := mem[..];
    ok := DecodeNoinit(stream, t, mem, base);
    SameOutsideTrans(old(mem[..]), before, mem[..], base, base + Size(t), base, base + Size(t));
  }
}
