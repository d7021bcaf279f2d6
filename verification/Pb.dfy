/** Protobuf messages as the nanopb decoder sees them: field tables, stored values, and the meaning
    of a byte string as a sequence of updates of the stored values (src/pb_decode.c). */
module Pb {
  import opened Common
  import Varint

  // The kinds of field the exchange tables use, with the room the struct gives them: a char array,
  // a size with a byte array, a uint32_t, a nested struct.
  datatype Kind = KString(cap: nat) | KBytes(cap: nat) | KUint32 | KMessage(sub: Table)

  // One pb_field_t: data_offset is the gap behind the previous field.
  datatype Field = Field(tag: nat, kind: Kind, gap: nat, size: nat)

  type Table = seq<Field>

  // What a struct holds. A string buffer holds its text up to the first zero byte; a byte array only
  // its first `size` bytes.
  datatype Val = VString(buf: Bytes) | VBytes(size: nat, buf: Bytes) | VUint(n: nat) | VMsg(fields: Message)

  type Message = seq<Val>

  ghost predicate Fits(f: Field, v: Val)
    decreases f
  {
    var k := f.kind;
    match k
    case KString(cap) => v.VString? && |v.buf| == cap
    case KBytes(cap) => v.VBytes? && |v.buf| == cap && v.size <= cap
    case KUint32 => v.VUint? && v.n < TWO_32
    case KMessage(sub) => v.VMsg? && Conforms(sub, v.fields)
  }

  ghost predicate Conforms(t: Table, m: Message)
    decreases t
  {
    |m| == |t| && forall i :: 0 <= i < |t| ==> Fits(t[i], m[i])
  }

  // --- tables ---

  function Offset(t: Table, i: nat): nat
    requires i < |t|
  {
    if i == 0 then t[0].gap else Offset(t, i - 1) + t[i - 1].size + t[i].gap
  }

  function Size(t: Table): nat {
    if t == [] then 0 else Offset(t, |t| - 1) + t[|t| - 1].size
  }

  // sizeof of a field of this kind: a byte array carries a two-byte size.
  predicate Holds(k: Kind, size: nat) {
    match k
    case KString(cap) => cap >= 1 && size == cap
    case KBytes(cap) => size == cap + 2
    case KUint32 => size == 4
    case KMessage(sub) => size >= Size(sub)
  }

  /** A table as nanopb generates it: at least one field, distinct non-zero field numbers, and room
      for every field within the 16 bits of data_size. */
  ghost predicate WellFormed(t: Table)
    decreases t
  {
    && |t| > 0
    && (forall i :: 0 <= i < |t| ==> 0 < t[i].tag < 0x2000_0000 && Holds(t[i].kind, t[i].size) && t[i].size < 0x10000)
    && (forall i, j :: 0 <= i < j < |t| ==> t[i].tag != t[j].tag)
    && (forall i :: 0 <= i < |t| ==> WellFormedField(t[i]))
  }

  ghost predicate WellFormedField(f: Field)
    decreases f
  {
    f.kind.KMessage? ==> WellFormed(f.kind.sub)
  }

  function Find(t: Table, tag: nat): (r: Option<nat>)
    ensures r.Some? ==> r.value < |t| && t[r.value].tag == tag
    ensures r.None? ==> forall i :: 0 <= i < |t| ==> t[i].tag != tag
  {
    if t == [] then None
    else if t[|t| - 1].tag == tag then Some(|t| - 1)
    else Find(t[..|t| - 1], tag)
  }

  // --- defaults ---

  function ZeroVal(f: Field): (v: Val)
    ensures Fits(f, v)
    decreases f
  {
    match f.kind
    case KString(cap) => VString(Zeros(cap))
    case KBytes(cap) => VBytes(0, Zeros(cap))
    case KUint32 => VUint(0)
    case KMessage(sub) => VMsg(ZeroMessage(sub))
  }

  function ZeroMessage(t: Table): (m: Message)
    ensures Conforms(t, m)
    decreases t
  {
    seq(|t|, i requires 0 <= i < |t| => ZeroVal(t[i]))
  }

  // --- decoding ---

  // A length and that many bytes.
  function Delimited(s: Bytes): (r: Option<(Bytes, Bytes)>)
    ensures r.Some? ==> |r.value.0| + |r.value.1| < |s|
  {
    match Varint.Parse32(s)
    case None => None
    case Some((n, rest)) => if n > |rest| then None else Some((rest[..n], rest[n..]))
  }

  function SkipVarint(s: Bytes): (r: Option<Bytes>)
    ensures r.Some? ==> |r.value| < |s|
  {
    if s == [] then None else if s[0] >= 128 then SkipVarint(s[1..]) else Some(s[1..])
  }

  function Skip(wire: nat, s: Bytes): (r: Option<Bytes>)
    ensures r.Some? ==> |r.value| <= |s|
  {
    match wire
    case 0 => SkipVarint(s)
    case 1 => if |s| < 8 then None else Some(s[8..])
    case 2 => (match Delimited(s) case None => None case Some((_, rest)) => Some(rest))
    case 5 => if |s| < 4 then None else Some(s[4..])
    case _ => None
  }

  // Overwriting the front of a buffer.
  function Over(front: Bytes, buf: Bytes): (r: Bytes)
    requires |front| <= |buf|
    ensures |r| == |buf|
  {
    front + buf[|front|..]
  }

  /** Decoding one known field into the value it had. The wire type of the field is not consulted. */
  function DecodeField(f: Field, s: Bytes, was: Val): (r: Option<(Val, Bytes)>)
    requires Fits(f, was)
    ensures r.Some? ==> Fits(f, r.value.0) && |r.value.1| < |s|
    decreases |s|, 0
  {
    if f.kind.KUint32? then
      match Varint.Parse64(s)
      case None => None
      case Some((v, rest)) => if v >= TWO_32 then None else Some((VUint(v), rest))
    else
      match Delimited(s)
      case None => None
      case Some((data, rest)) =>
        if f.kind.KMessage? then
          match DecodeFields(f.kind.sub, data, was.fields)
          case None => None
          case Some(m) => Some((VMsg(m), rest))
        else if f.kind.KString? then
          if |data| + 1 > f.kind.cap then None else Some((VString(Over(data + [0], was.buf)), rest))
        else
          if |data| > f.kind.cap then None else Some((VBytes(|data|, Over(data, was.buf)), rest))
  }

  /** pb_decode_noinit on the bytes left in the stream: fields update the message in turn, unknown ones
      are skipped, and a zero tag ends the message early. */
  function DecodeFields(t: Table, s: Bytes, m: Message): (r: Option<Message>)
    requires Conforms(t, m)
    ensures r.Some? ==> Conforms(t, r.value)
    decreases |s|, 1
  {
    if s == [] then Some(m)
    else match Varint.Parse32(s)
      case None => None
      case Some((key, rest)) =>
        if key == 0 then Some(m)
        else match Find(t, key / 8)
          case None =>
            (match Skip(key % 8, rest) case None => None case Some(after) => DecodeFields(t, after, m))
          case Some(i) =>
            match DecodeField(t[i], rest, m[i])
            case None => None
            case Some((v, after)) => DecodeFields(t, after, m[i := v])
  }

  /** pb_decode: defaults first. */
  function Decode(t: Table, s: Bytes): Option<Message> { DecodeFields(t, s, ZeroMessage(t)) }
}
