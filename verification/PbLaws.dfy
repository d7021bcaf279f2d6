/** What decoding means: encoded items, the merge law, and the round trip of messages. */
module PbLaws {
  import opened Common
  import opened Pb
  import Varint

  // --- encoded items ("Message Structure" in Protocol Buffers Encoding) ---

  datatype Payload = Number(v: nat) | Fixed64(b: Bytes) | Block(b: Bytes) | Fixed32(b: Bytes)

  datatype Item = Item(tag: nat, payload: Payload)

  function Wire(p: Payload): (w: nat)
    ensures w < 8
  {
    match p case Number(_) => 0 case Fixed64(_) => 1 case Block(_) => 2 case Fixed32(_) => 5
  }

  predicate ValidItem(it: Item) {
    && 0 < it.tag < 0x2000_0000
    && match it.payload
       case Number(v) => v < TWO_64
       case Fixed64(b) => |b| == 8
       case Block(b) => |b| < TWO_32
       case Fixed32(b) => |b| == 4
  }

  function EncodePayload(p: Payload): Bytes {
    match p
    case Number(v) => Varint.Encode(v)
    case Block(b) => Varint.Encode(|b|) + b
    case Fixed64(b) => b
    case Fixed32(b) => b
  }

  function EncodeItem(it: Item): (e: Bytes)
    ensures e != []
  {
    Varint.Encode(it.tag * 8 + Wire(it.payload)) + EncodePayload(it.payload)
  }

  function EncodeItems(items: seq<Item>): Bytes {
    if items == [] then [] else EncodeItem(items[0]) + EncodeItems(items[1..])
  }

  // An item of a known field has the wire type of its kind.
  predicate WellTyped(t: Table, it: Item) {
    ValidItem(it) &&
    match Find(t, it.tag)
    case None => true
    case Some(i) => if t[i].kind.KUint32? then it.payload.Number? else it.payload.Block?
  }

  /** The update one item stands for; None when the value does not fit its field. */
  function ApplyField(f: Field, p: Payload, was: Val): (r: Option<Val>)
    requires Fits(f, was) && if f.kind.KUint32? then p.Number? else p.Block?
    ensures r.Some? ==> Fits(f, r.value)
  {
    match f.kind
    case KUint32 => if p.v >= TWO_32 then None else Some(VUint(p.v))
    case KString(cap) => if |p.b| + 1 > cap then None else Some(VString(Over(p.b + [0], was.buf)))
    case KBytes(cap) => if |p.b| > cap then None else Some(VBytes(|p.b|, Over(p.b, was.buf)))
    case KMessage(sub) => (match DecodeFields(sub, p.b, was.fields) case None => None case Some(m) => Some(VMsg(m)))
  }

  function Apply(t: Table, m: Message, it: Item): (r: Option<Message>)
    requires Conforms(t, m) && WellTyped(t, it)
    ensures r.Some? ==> Conforms(t, r.value)
  {
    match Find(t, it.tag)
    case None => Some(m)
    case Some(i) => match ApplyField(t[i], it.payload, m[i]) case None => None case Some(v) => Some(m[i := v])
  }

  ghost predicate AllWellTyped(t: Table, items: seq<Item>) { forall i :: 0 <= i < |items| ==> WellTyped(t, items[i]) }

  function Fold(t: Table, m: Message, items: seq<Item>): (r: Option<Message>)
    requires Conforms(t, m) && AllWellTyped(t, items)
    ensures r.Some? ==> Conforms(t, r.value)
    decreases items
  {
    if items == [] then Some(m)
    else match Apply(t, m, items[0]) case None => None case Some(next) => Fold(t, next, items[1..])
  }

  // --- decoding encoded items is folding their updates ---

  lemma DelimitedBlock(b: Bytes, rest: Bytes)
    requires |b| < TWO_32
    ensures Delimited(Varint.Encode(|b|) + b + rest) == Some((b, rest))
  {
    hide Varint.Encode, Varint.Parse32, Delimited;
    Regroup(Varint.Encode(|b|), b, rest);
    Varint.Fast32Exactly(|b|, b + rest);
    DelimitedIs(Varint.Encode(|b|) + (b + rest), b, rest);
  }

  lemma Regroup(a: Bytes, b: Bytes, c: Bytes)
    ensures a + b + c == a + (b + c)
  {
  }

  lemma DelimitedIs(s: Bytes, b: Bytes, rest: Bytes)
    requires Varint.Parse32(s) == Some((|b|, b + rest))
    ensures Delimited(s) == Some((b, rest))
  {
    hide Varint.Parse32;
    assert (b + rest)[..|b|] == b && (b + rest)[|b|..] == rest;
  }

  lemma {:induction false} SkipEncodedVarint(v: nat, rest: Bytes)
    ensures SkipVarint(Varint.Encode(v) + rest) == Some(rest)
  {
    Varint.EncodeStep(v, rest);
    if v >= 128 { SkipEncodedVarint(v / 128, rest); }
  }

  lemma SkipPayload(p: Payload, rest: Bytes)
    requires ValidItem(Item(1, p))
    ensures Skip(Wire(p), EncodePayload(p) + rest) == Some(rest)
  {
    match p
    case Number(v) => SkipEncodedVarint(v, rest);
    case Block(b) => DelimitedBlock(b, rest);
    case Fixed64(b) => assert (b + rest)[8..] == rest;
    case Fixed32(b) => assert (b + rest)[4..] == rest;
  }

  lemma DecodePayload(f: Field, p: Payload, rest: Bytes, was: Val)
    requires Fits(f, was) && ValidItem(Item(1, p)) && if f.kind.KUint32? then p.Number? else p.Block?
    ensures DecodeField(f, EncodePayload(p) + rest, was) ==
            match ApplyField(f, p, was) case None => None case Some(v) => Some((v, rest))
  {
    if f.kind.KUint32? {
      Varint.RoundTrip64(p.v, rest);
    } else {
      DelimitedBlock(p.b, rest);
    }
  }

  lemma DecodeItem(t: Table, it: Item, tail: Bytes, m: Message)
    requires Conforms(t, m) && WellTyped(t, it)
    ensures DecodeFields(t, EncodeItem(it) + tail, m) ==
            match Apply(t, m, it) case None => None case Some(next) => DecodeFields(t, tail, next)
  {
    hide DecodeField, ApplyField, EncodePayload, Skip;
    var key := it.tag * 8 + Wire(it.payload);
    var rest := EncodePayload(it.payload) + tail;
    assert EncodeItem(it) + tail == Varint.Encode(key) + rest;
    Varint.Fast32Exactly(key, rest);
    assert key / 8 == it.tag && key % 8 == Wire(it.payload);
    match Find(t, it.tag)
    case None => SkipPayload(it.payload, tail);
    case Some(i) => DecodePayload(t[i], it.payload, tail, m[i]);
  }

  /** Decoding a sequence of encoded items applies their updates in order, and goes on with what
      follows; it fails exactly when an update does not fit. */
  lemma {:induction false} DecodeItems(t: Table, items: seq<Item>, tail: Bytes, m: Message)
    requires Conforms(t, m) && AllWellTyped(t, items)
    ensures DecodeFields(t, EncodeItems(items) + tail, m) ==
            match Fold(t, m, items) case None => None case Some(next) => DecodeFields(t, tail, next)
  {
    if items == [] {
      assert EncodeItems(items) + tail == tail;
    } else {
      var rest := EncodeItems(items[1..]) + tail;
      assert EncodeItems(items) + tail == EncodeItem(items[0]) + rest;
      DecodeItem(t, items[0], rest, m);
      match Apply(t, m, items[0])
      case None =>
      case Some(next) => DecodeItems(t, items[1..], tail, next);
    }
  }

  // --- unknown fields ---

  function Known(t: Table, items: seq<Item>): seq<Item> {
    if items == [] then []
    else (if Find(t, items[0].tag).Some? then [items[0]] else []) + Known(t, items[1..])
  }

  lemma {:induction false} FoldKnown(t: Table, items: seq<Item>, m: Message)
    requires Conforms(t, m) && AllWellTyped(t, items)
    ensures AllWellTyped(t, Known(t, items)) && Fold(t, m, Known(t, items)) == Fold(t, m, items)
  {
    if items != [] {
      var tail := Known(t, items[1..]);
      match Apply(t, m, items[0])
      case None =>
        FoldKnown(t, items[1..], m);
      case Some(next) =>
        FoldKnown(t, items[1..], next);
        if Find(t, items[0].tag).Some? {
          assert ([items[0]] + tail)[1..] == tail;
        } else {
          assert [] + tail == tail;
        }
    }
  }

  /** Well-formed unknown fields anywhere between the known ones change nothing. */
  lemma UnknownFieldsIgnored(t: Table, items: seq<Item>, m: Message)
    requires Conforms(t, m) && AllWellTyped(t, items)
    ensures DecodeFields(t, EncodeItems(items), m) == DecodeFields(t, EncodeItems(Known(t, items)), m)
  {
    FoldKnown(t, items, m);
    DecodeItems(t, items, [], m);
    DecodeItems(t, Known(t, items), [], m);
    assert EncodeItems(items) + [] == EncodeItems(items);
    assert EncodeItems(Known(t, items)) + [] == EncodeItems(Known(t, items));
  }

  // --- more bytes behind a complete field change nothing ---

  lemma ExtendDelimited(s: Bytes, more: Bytes)
    requires Delimited(s).Some?
    ensures var (data, rest) := Delimited(s).value; Delimited(s + more) == Some((data, rest + more))
  {
    Varint.Extend32(s, more);
    var (n, rest) := Varint.Parse32(s).value;
    assert (rest + more)[..n] == rest[..n] && (rest + more)[n..] == rest[n..] + more;
  }

  lemma {:induction false} ExtendSkipVarint(s: Bytes, more: Bytes)
    requires SkipVarint(s).Some?
    ensures SkipVarint(s + more) == Some(SkipVarint(s).value + more)
  {
    assert (s + more)[1..] == s[1..] + more;
    if s[0] >= 128 { ExtendSkipVarint(s[1..], more); }
  }

  lemma ExtendSkip(wire: nat, s: Bytes, more: Bytes)
    requires Skip(wire, s).Some?
    ensures Skip(wire, s + more) == Some(Skip(wire, s).value + more)
  {
    match wire
    case 0 => ExtendSkipVarint(s, more);
    case 1 => assert (s + more)[8..] == s[8..] + more;
    case 2 => ExtendDelimited(s, more);
    case 5 => assert (s + more)[4..] == s[4..] + more;
  }

  lemma ExtendField(f: Field, s: Bytes, more: Bytes, was: Val)
    requires Fits(f, was) && DecodeField(f, s, was).Some?
    ensures var (v, rest) := DecodeField(f, s, was).value; DecodeField(f, s + more, was) == Some((v, rest + more))
  {
    if f.kind.KUint32? {
      Varint.Extend64(s, more, 0, 0);
    } else {
      ExtendDelimited(s, more);
    }
  }

  /** Decoding reaches the very end of the bytes: it succeeds and meets no zero tag. */
  ghost predicate Complete(t: Table, s: Bytes, m: Message)
    requires Conforms(t, m)
    decreases |s|
  {
    s == [] ||
    match Varint.Parse32(s)
    case None => false
    case Some((key, rest)) =>
      key != 0 &&
      match Find(t, key / 8)
      case None => (match Skip(key % 8, rest) case None => false case Some(after) => Complete(t, after, m))
      case Some(i) =>
        match DecodeField(t[i], rest, m[i])
        case None => false
        case Some((v, after)) => Complete(t, after, m[i := v])
  }

  /** The merge law: when a decodes completely, decoding a followed by b is decoding b on top of what
      a left. */
  lemma {:induction false} MergeLaw(t: Table, a: Bytes, b: Bytes, m: Message)
    requires Conforms(t, m) && Complete(t, a, m)
    ensures DecodeFields(t, a, m).Some?
    ensures DecodeFields(t, a + b, m) == DecodeFields(t, b, DecodeFields(t, a, m).value)
    decreases |a|
  {
    hide DecodeField, Skip;
    if a == [] {
      assert a + b == b;
    } else {
      Varint.Extend32(a, b);
      var (key, rest) := Varint.Parse32(a).value;
      match Find(t, key / 8)
      case None =>
        ExtendSkip(key % 8, rest, b);
        MergeLaw(t, Skip(key % 8, rest).value, b, m);
      case Some(i) =>
        ExtendField(t[i], rest, b, m[i]);
        var (v, after) := DecodeField(t[i], rest, m[i]).value;
        MergeLaw(t, after, b, m[i := v]);
    }
  }

  /** The terminator is the reason for the condition: a zero tag hides whatever follows. */
  lemma ZeroTagEnds(t: Table, b: Bytes, m: Message)
    requires Conforms(t, m)
    ensures DecodeFields(t, [0] + b, m) == Some(m)
  {
  }

  // --- what a stored message says ---

  datatype Sem = SText(s: Bytes) | SBlob(b: Bytes) | SNum(n: nat) | SSub(subs: seq<Sem>)

  // The C string in a buffer.
  function Text(buf: Bytes): Bytes {
    if buf == [] || buf[0] == 0 then [] else [buf[0]] + Text(buf[1..])
  }

  function Shown(f: Field, v: Val): Sem
    requires Fits(f, v)
    decreases f
  {
    match f.kind
    case KString(_) => SText(Text(v.buf))
    case KBytes(_) => SBlob(v.buf[..v.size])
    case KUint32 => SNum(v.n)
    case KMessage(sub) => SSub(ShownAll(sub, v.fields))
  }

  function ShownAll(t: Table, m: Message): (xs: seq<Sem>)
    requires Conforms(t, m)
    ensures |xs| == |t|
    decreases t
  {
    seq(|t|, i requires 0 <= i < |t| => Shown(t[i], m[i]))
  }

  function DefaultSem(f: Field): Sem
    decreases f
  {
    match f.kind
    case KString(_) => SText([])
    case KBytes(_) => SBlob([])
    case KUint32 => SNum(0)
    case KMessage(sub) => SSub(DefaultSems(sub))
  }

  function DefaultSems(t: Table): seq<Sem>
    decreases t
  {
    seq(|t|, i requires 0 <= i < |t| => DefaultSem(t[i]))
  }

  // A value the field can hold; strings are NUL-free.
  ghost predicate ValidSem(f: Field, x: Sem)
    decreases f, 0
  {
    match f.kind
    case KString(cap) => x.SText? && 0 !in x.s && |x.s| < cap
    case KBytes(cap) => x.SBlob? && |x.b| <= cap
    case KUint32 => x.SNum? && x.n < TWO_32
    case KMessage(sub) => x.SSub? && ValidSems(sub, x.subs) && |EncodeItems(ItemsFrom(sub, x.subs, 0))| < TWO_32
  }

  ghost predicate ValidSems(t: Table, xs: seq<Sem>)
    decreases t, 1
  {
    |xs| == |t| && forall i :: 0 <= i < |t| ==> ValidSem(t[i], xs[i])
  }

  // Proto3 leaves out fields with default values.
  ghost function ItemsFrom(t: Table, xs: seq<Sem>, i: nat): seq<Item>
    requires i <= |t| == |xs|
    decreases t, |t| - i
  {
    if i == |t| then []
    else (if xs[i] == DefaultSem(t[i]) then [] else [Item(t[i].tag, PayloadOf(t[i], xs[i]))]) + ItemsFrom(t, xs, i + 1)
  }

  ghost function PayloadOf(f: Field, x: Sem): Payload
    decreases f, 0
  {
    match x
    case SText(s) => Block(s)
    case SBlob(b) => Block(b)
    case SNum(n) => Number(n)
    case SSub(xs) =>
      if f.kind.KMessage? && |xs| == |f.kind.sub| then Block(EncodeItems(ItemsFrom(f.kind.sub, xs, 0))) else Block([])
  }

  /** The proto3 encoding of a message, fields in the order of the table. */
  ghost function EncodeMessage(t: Table, xs: seq<Sem>): Bytes
    requires |xs| == |t|
  {
    EncodeItems(ItemsFrom(t, xs, 0))
  }

  lemma {:induction false} TextOf(s: Bytes, rest: Bytes)
    requires 0 !in s && rest != [] && rest[0] == 0
    ensures Text(s + rest) == s
  {
    if s == [] {
      assert s + rest == rest;
    } else {
      TextOf(s[1..], rest);
      assert (s + rest)[1..] == s[1..] + rest;
      assert s == [s[0]] + s[1..];
    }
  }

  lemma ZeroShown(f: Field)
    ensures Shown(f, ZeroVal(f)) == DefaultSem(f)
    decreases f
  {
    match f.kind
    case KMessage(sub) =>
      forall i | 0 <= i < |sub|
        ensures Shown(sub[i], ZeroVal(sub[i])) == DefaultSem(sub[i])
      {
        ZeroShown(sub[i]);
      }
      assert ShownAll(sub, ZeroMessage(sub)) == DefaultSems(sub);
    case _ =>
  }

  lemma FindUnique(t: Table, i: nat)
    requires WellFormed(t) && i < |t|
    ensures Find(t, t[i].tag) == Some(i)
  {
  }

  // --- encodings of a message ---

  // A payload that gives a field this value, within its capacity; a submessage in any of its encodings.
  ghost predicate Encodes(f: Field, p: Payload, x: Sem)
    decreases f, 0
  {
    match f.kind
    case KString(cap) => x.SText? && 0 !in x.s && |x.s| < cap && p == Block(x.s)
    case KBytes(cap) => x.SBlob? && |x.b| <= cap && p == Block(x.b)
    case KUint32 => x.SNum? && x.n < TWO_32 && p == Number(x.n)
    case KMessage(sub) => x.SSub? && exists items :: SpellsAll(sub, items, x.subs) && p == Block(EncodeItems(items))
  }

  predicate Among(items: seq<Item>, tag: nat) { exists k :: 0 <= k < |items| && items[k].tag == tag }

  // The items of a message, in any order: each known field at most once and with its value, and unknown
  // fields anywhere.
  ghost predicate Spells(t: Table, items: seq<Item>, xs: seq<Sem>)
    decreases t, 3
  {
    |xs| == |t| && AllWellTyped(t, items) && AllEncoded(t, items, xs) && OncePerField(t, items)
  }

  ghost predicate Encoded(t: Table, it: Item, xs: seq<Sem>)
    requires |xs| == |t|
    decreases t, 1
  {
    match Find(t, it.tag) case None => true case Some(i) => Encodes(t[i], it.payload, xs[i])
  }

  ghost predicate AllEncoded(t: Table, items: seq<Item>, xs: seq<Sem>)
    requires |xs| == |t|
    decreases t, 2
  {
    forall k :: 0 <= k < |items| ==> Encoded(t, items[k], xs)
  }

  ghost predicate OncePerField(t: Table, items: seq<Item>) {
    forall k, l :: 0 <= k < l < |items| && items[k].tag == items[l].tag ==> Find(t, items[k].tag).None?
  }

  // Only fields with default values are left out.
  ghost predicate SpellsAll(t: Table, items: seq<Item>, xs: seq<Sem>)
    decreases t, 4
  {
    Spells(t, items, xs) && forall i :: 0 <= i < |t| ==> xs[i] == DefaultSem(t[i]) || Among(items, t[i].tag)
  }

  // One field set from its default.
  lemma {:induction false} FieldRoundTrip(f: Field, p: Payload, x: Sem)
    requires WellFormedField(f) && Holds(f.kind, f.size) && Encodes(f, p, x)
    ensures if f.kind.KUint32? then p.Number? else p.Block?
    ensures ApplyField(f, p, ZeroVal(f)).Some? && Shown(f, ApplyField(f, p, ZeroVal(f)).value) == x
    decreases f, 0
  {
    match f.kind
    case KUint32 =>
    case KString(cap) => TextOf(x.s, [0] + Zeros(cap)[|x.s| + 1..]);
                         assert x.s + ([0] + Zeros(cap)[|x.s| + 1..]) == Over(x.s + [0], Zeros(cap));
    case KBytes(cap) => assert Over(x.b, Zeros(cap))[..|x.b|] == x.b;
    case KMessage(sub) =>
      var items :| SpellsAll(sub, items, x.subs) && p == Block(EncodeItems(items));
      AnyOrderRoundTrip(sub, items, x.subs);
  }

  // The fields among the items show xs, the others what they showed in m.
  ghost predicate Filled(t: Table, items: seq<Item>, xs: seq<Sem>, m: Message, r: Message)
    requires Conforms(t, m) && Conforms(t, r) && |xs| == |t|
  {
    forall j :: 0 <= j < |t| ==> Shown(t[j], r[j]) == if Among(items, t[j].tag) then xs[j] else Shown(t[j], m[j])
  }

  // The fields among the items are still default.
  ghost predicate Untouched(t: Table, items: seq<Item>, m: Message)
    requires |m| == |t|
  {
    forall k :: 0 <= k < |items| ==>
      match Find(t, items[k].tag) case None => true case Some(i) => m[i] == ZeroVal(t[i])
  }

  // The items but the first.
  lemma SpellsRest(t: Table, items: seq<Item>, xs: seq<Sem>)
    requires Spells(t, items, xs) && items != []
    ensures Spells(t, items[1..], xs) && WellTyped(t, items[0]) && Encoded(t, items[0], xs)
    ensures forall tag: nat :: Among(items, tag) <==> items[0].tag == tag || Among(items[1..], tag)
    ensures Find(t, items[0].tag).Some? ==> !Among(items[1..], items[0].tag)
  {
    hide Encoded, WellTyped, Find;
    var it, rest := items[0], items[1..];
    assert forall k :: 0 <= k < |rest| ==> rest[k] == items[k + 1];
    assert items == [it] + rest;
    forall tag: nat | true
      ensures Among(items, tag) <==> it.tag == tag || Among(rest, tag)
    {
      AmongMore(it, rest, tag);
    }
  }

  lemma FilledStep(t: Table, items: seq<Item>, xs: seq<Sem>, m: Message, i: nat, v: Val, r: Message)
    requires WellFormed(t) && Spells(t, items, xs) && items != [] && Find(t, items[0].tag) == Some(i)
    requires Conforms(t, m) && Conforms(t, r) && Fits(t[i], v) && Shown(t[i], v) == xs[i]
    requires Filled(t, items[1..], xs, m[i := v], r)
    ensures Filled(t, items, xs, m, r)
  {
    SpellsRest(t, items, xs);
    hide Shown, Fits, Among, Spells;
    forall j | 0 <= j < |t|
      ensures Shown(t[j], r[j]) == if Among(items, t[j].tag) then xs[j] else Shown(t[j], m[j])
    {
      assert j != i ==> m[i := v][j] == m[j] && t[j].tag != t[i].tag;
    }
  }

  lemma UntouchedRest(t: Table, items: seq<Item>, xs: seq<Sem>, m: Message, i: nat, v: Val)
    requires Spells(t, items, xs) && items != [] && |m| == |t| && Untouched(t, items, m)
    requires Find(t, items[0].tag) == Some(i)
    ensures Untouched(t, items[1..], m[i := v])
  {
    hide Encodes, AllWellTyped, ZeroVal;
    var rest := items[1..];
    assert forall k :: 0 <= k < |rest| ==> rest[k] == items[k + 1];
  }

  lemma {:induction false} FoldSpelled(t: Table, items: seq<Item>, xs: seq<Sem>, m: Message)
    requires WellFormed(t) && Spells(t, items, xs) && Conforms(t, m) && Untouched(t, items, m)
    ensures Fold(t, m, items).Some? && Filled(t, items, xs, m, Fold(t, m, items).value)
    decreases t, 0, |items|
  {
    if items != [] {
      var it, rest := items[0], items[1..];
      SpellsRest(t, items, xs);
      match Find(t, it.tag)
      case None =>
        assert Untouched(t, rest, m) by { assert forall k :: 0 <= k < |rest| ==> rest[k] == items[k + 1]; }
        FoldSpelled(t, rest, xs, m);
        hide Shown, Among, Spells, WellTyped;
      case Some(i) =>
        FieldRoundTrip(t[i], it.payload, xs[i]);
        hide ApplyField, Shown, Find, Encodes;
        var next := Apply(t, m, it).value;
        UntouchedRest(t, items, xs, m, i, next[i]);
        FoldSpelled(t, rest, xs, next);
        FilledStep(t, items, xs, m, i, next[i], Fold(t, next, rest).value);
    }
  }

  /** The message round trip, in full: whatever the order of the fields, with unknown fields anywhere and
      default values sent or left out, in submessages too, decoding an encoding of a message within
      the field capacities gives back that message. */
  lemma {:induction false} AnyOrderRoundTrip(t: Table, items: seq<Item>, xs: seq<Sem>)
    requires WellFormed(t) && SpellsAll(t, items, xs)
    ensures var r := Decode(t, EncodeItems(items)); r.Some? && ShownAll(t, r.value) == xs
    decreases t, 1
  {
    var zero := ZeroMessage(t);
    FoldSpelled(t, items, xs, zero);
    DecodeItems(t, items, [], zero);
    assert EncodeItems(items) + [] == EncodeItems(items);
    hide Fold, DecodeFields, Spells, Among, EncodeItems;
    forall i | 0 <= i < |t|
      ensures Shown(t[i], Fold(t, zero, items).value[i]) == xs[i]
    {
      ZeroShown(t[i]);
    }
  }

  // --- the encoding in the order of the table ---

  lemma {:induction false} CanonicalField(f: Field, x: Sem)
    requires WellFormedField(f) && Holds(f.kind, f.size) && f.size < 0x10000 && ValidSem(f, x)
    ensures Encodes(f, PayloadOf(f, x), x) && ValidItem(Item(1, PayloadOf(f, x)))
    decreases f, 0
  {
    match f.kind
    case KMessage(sub) =>
      CanonicalSpells(sub, x.subs, 0);
      assert SpellsAll(sub, ItemsFrom(sub, x.subs, 0), x.subs);
    case _ =>
  }

  // The items are of fields from i on, and of all of these that are not default.
  ghost predicate CoversFrom(t: Table, items: seq<Item>, xs: seq<Sem>, i: nat)
    requires |xs| == |t|
  {
    forall j :: 0 <= j < |t| ==>
      if j < i then !Among(items, t[j].tag) else xs[j] == DefaultSem(t[j]) || Among(items, t[j].tag)
  }

  lemma CoversMore(t: Table, it: Item, tail: seq<Item>, xs: seq<Sem>, i: nat)
    requires WellFormed(t) && i < |t| == |xs| && it.tag == t[i].tag && CoversFrom(t, tail, xs, i + 1)
    ensures !Among(tail, it.tag) && CoversFrom(t, [it] + tail, xs, i)
  {
    hide Among;
    var items := [it] + tail;
    forall j | 0 <= j < |t|
      ensures Among(items, t[j].tag) <==> j == i || Among(tail, t[j].tag)
    {
      AmongMore(it, tail, t[j].tag);
    }
  }

  lemma CoversSkip(t: Table, tail: seq<Item>, xs: seq<Sem>, i: nat)
    requires i < |t| == |xs| && xs[i] == DefaultSem(t[i]) && CoversFrom(t, tail, xs, i + 1)
    ensures CoversFrom(t, tail, xs, i)
  {
  }

  lemma NothingCovered(t: Table, xs: seq<Sem>)
    requires |xs| == |t|
    ensures Spells(t, [], xs) && CoversFrom(t, [], xs, |t|)
  {
  }

  lemma {:induction false} CanonicalSpells(t: Table, xs: seq<Sem>, i: nat)
    requires WellFormed(t) && ValidSems(t, xs) && i <= |t|
    ensures Spells(t, ItemsFrom(t, xs, i), xs) && CoversFrom(t, ItemsFrom(t, xs, i), xs, i)
    decreases t, 1, |t| - i
  {
    hide Spells, CoversFrom, ValidSem, PayloadOf, WellTyped, Encoded, Among, WellFormed;
    if i == |t| {
      NothingCovered(t, xs);
    } else {
      CanonicalSpells(t, xs, i + 1);
      var tail := ItemsFrom(t, xs, i + 1);
      if xs[i] == DefaultSem(t[i]) {
        assert [] + tail == tail;
        CoversSkip(t, tail, xs, i);
      } else {
        var it := Item(t[i].tag, PayloadOf(t[i], xs[i]));
        CanonicalItem(t, xs, i);
        CoversMore(t, it, tail, xs, i);
        SpellsMore(t, it, tail, xs);
      }
    }
  }

  lemma {:induction false} CanonicalItem(t: Table, xs: seq<Sem>, i: nat)
    requires WellFormed(t) && ValidSems(t, xs) && i < |t|
    ensures var it := Item(t[i].tag, PayloadOf(t[i], xs[i])); WellTyped(t, it) && Encoded(t, it, xs)
    decreases t, 0
  {
    CanonicalField(t[i], xs[i]);
    FindUnique(t, i);
    hide PayloadOf, ValidSem, Find;
  }

  lemma SpellsMore(t: Table, it: Item, tail: seq<Item>, xs: seq<Sem>)
    requires Spells(t, tail, xs) && WellTyped(t, it) && Encoded(t, it, xs) && !Among(tail, it.tag)
    ensures Spells(t, [it] + tail, xs)
    ensures forall tag: nat :: Among([it] + tail, tag) <==> it.tag == tag || Among(tail, tag)
  {
    hide Encoded, WellTyped, Find;
    var items := [it] + tail;
    assert forall k :: 0 < k < |items| ==> items[k] == tail[k - 1];
    assert AllEncoded(t, items, xs);
    assert AllWellTyped(t, items);
    OnceMore(t, it, tail);
    hide Spells, Among;
    forall tag: nat | true
      ensures Among(items, tag) <==> it.tag == tag || Among(tail, tag)
    {
      AmongMore(it, tail, tag);
    }
  }

  lemma OnceMore(t: Table, it: Item, tail: seq<Item>)
    requires OncePerField(t, tail) && !Among(tail, it.tag)
    ensures OncePerField(t, [it] + tail)
  {
    hide Find;
    var items := [it] + tail;
    forall k, l | 0 <= k < l < |items| && items[k].tag == items[l].tag
      ensures Find(t, items[k].tag).None?
    {
      assert items[l] == tail[l - 1];
      if k > 0 { assert items[k] == tail[k - 1]; }
    }
  }

  lemma AmongMore(it: Item, tail: seq<Item>, tag: nat)
    ensures Among([it] + tail, tag) <==> it.tag == tag || Among(tail, tag)
  {
    var items := [it] + tail;
    if Among(tail, tag) {
      var k :| 0 <= k < |tail| && tail[k].tag == tag;
      assert items[k + 1] == tail[k];
    }
    if it.tag == tag { assert items[0] == it; }
    if Among(items, tag) {
      var k :| 0 <= k < |items| && items[k].tag == tag;
      assert k > 0 ==> items[k] == tail[k - 1];
    }
  }

  /** The message round trip: decoding the proto3 encoding of any message within the field capacities
      gives back that message. */
  lemma MessageRoundTrip(t: Table, xs: seq<Sem>)
    requires WellFormed(t) && ValidSems(t, xs)
    ensures var r := Decode(t, EncodeMessage(t, xs)); r.Some? && ShownAll(t, r.value) == xs
  {
    CanonicalSpells(t, xs, 0);
    AnyOrderRoundTrip(t, ItemsFrom(t, xs, 0), xs);
  }

  /** The same with well-formed unknown fields between the fields. */
  lemma RoundTripWithUnknown(t: Table, xs: seq<Sem>, items: seq<Item>)
    requires WellFormed(t) && ValidSems(t, xs)
    requires AllWellTyped(t, items) && Known(t, items) == ItemsFrom(t, xs, 0)
    ensures var r := Decode(t, EncodeItems(items)); r.Some? && ShownAll(t, r.value) == xs
  {
    UnknownFieldsIgnored(t, items, ZeroMessage(t));
    MessageRoundTrip(t, xs);
  }

  // --- last one wins ---

  // The value a payload gives a scalar field.
  function SemOf(f: Field, p: Payload): Sem
    requires if f.kind.KUint32? then p.Number? else p.Block?
  {
    if p.Number? then SNum(p.v) else if f.kind.KString? then SText(Text(p.b + [0])) else SBlob(p.b)
  }

  function LastSem(t: Table, i: nat, items: seq<Item>, x: Sem): Sem
    requires i < |t| && AllWellTyped(t, items) && Find(t, t[i].tag) == Some(i)
    decreases items
  {
    if items == [] then x
    else LastSem(t, i, items[1..], if items[0].tag == t[i].tag then SemOf(t[i], items[0].payload) else x)
  }

  lemma {:induction false} TextCut(s: Bytes, rest: Bytes)
    ensures Text(s + [0] + rest) == Text(s + [0])
  {
    if s != [] && s[0] != 0 {
      TextCut(s[1..], rest);
      assert (s + [0] + rest)[1..] == s[1..] + [0] + rest && (s + [0])[1..] == s[1..] + [0];
    }
  }

  lemma ScalarApplied(f: Field, p: Payload, was: Val)
    requires Fits(f, was) && !f.kind.KMessage? && if f.kind.KUint32? then p.Number? else p.Block?
    requires ApplyField(f, p, was).Some?
    ensures Shown(f, ApplyField(f, p, was).value) == SemOf(f, p)
  {
    match f.kind
    case KString(cap) => TextCut(p.b, was.buf[|p.b| + 1..]);
    case KBytes(cap) => assert Over(p.b, was.buf)[..|p.b|] == p.b;
    case KUint32 =>
  }

  /** A scalar field shows the last value sent for it, whatever came before and in between. */
  lemma {:induction false} LastOneWins(t: Table, items: seq<Item>, m: Message, i: nat)
    requires WellFormed(t) && Conforms(t, m) && AllWellTyped(t, items) && i < |t| && !t[i].kind.KMessage?
    requires Fold(t, m, items).Some? && Find(t, t[i].tag) == Some(i)
    ensures Shown(t[i], Fold(t, m, items).value[i]) == LastSem(t, i, items, Shown(t[i], m[i]))
    decreases items
  {
    if items != [] {
      var next := Apply(t, m, items[0]).value;
      if items[0].tag == t[i].tag {
        ScalarApplied(t[i], items[0].payload, m[i]);
      }
      LastOneWins(t, items[1..], next, i);
    }
  }

  /** A submessage sent in two parts is merged: the second part decodes on top of the first. */
  lemma SubmessagesMerge(f: Field, a: Bytes, b: Bytes, was: Val)
    requires f.kind.KMessage? && Fits(f, was) && Complete(f.kind.sub, a, was.fields)
    ensures ApplyField(f, Block(a), was).Some?
    ensures ApplyField(f, Block(a + b), was) == ApplyField(f, Block(b), ApplyField(f, Block(a), was).value)
  {
    MergeLaw(f.kind.sub, a, b, was.fields);
  }

  // --- on the wire ---

  /** The examples of "Message Structure" and "Strings" in Protocol Buffers Encoding: field 1 with the number 150,
      and field 2 with the text "testing"; and the two fixed widths. */
  lemma WireExamples(b: Bytes)
    ensures EncodeItem(Item(1, Number(150))) == [0x08, 0x96, 0x01]
    ensures EncodeItem(Item(2, Block([0x74, 0x65, 0x73, 0x74, 0x69, 0x6E, 0x67]))) ==
            [0x12, 0x07, 0x74, 0x65, 0x73, 0x74, 0x69, 0x6E, 0x67]
    ensures EncodeItem(Item(1, Fixed64(b))) == [0x09] + b && EncodeItem(Item(1, Fixed32(b))) == [0x0D] + b
  {
    assert Varint.Encode(150) == [0x96, 0x01] by { assert Varint.Encode(1) == [1]; }
  }
}
