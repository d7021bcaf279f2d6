/** Regrouping bits (convertbits of test/python/apps/bitcoin_client/ledger_bitcoin/segwit_addr.py). */
module ConvertBits {
  import opened Common

  function Two(k: nat): nat { Pow(2, k) }

  lemma TwoPositive(k: nat)
    ensures Two(k) > 0
  {
    PowPositive(2, k);
  }

  lemma TwoAdds(a: nat, b: nat)
    ensures Two(a + b) == Two(a) * Two(b)
  {
    PowAdd(2, a, b);
  }

  // --- digits ---

  // The number the digits spell in this base.
  function Value(d: seq<nat>, base: nat): nat {
    if d == [] then 0 else Value(d[..|d| - 1], base) * base + d[|d| - 1]
  }

  ghost predicate Digits(d: seq<nat>, base: nat) { forall i :: 0 <= i < |d| ==> d[i] < base }

  lemma ValueMore(d: seq<nat>, x: nat, base: nat)
    ensures Value(d + [x], base) == Value(d, base) * base + x
  {
    assert (d + [x])[..|d|] == d;
  }

  lemma {:induction false} DivisionTells(base: nat, a: nat, x: nat, b: nat, y: nat)
    requires x < base && y < base && a * base + x == b * base + y
    ensures a == b && x == y
  {
    if a < b {
      Multiples(base, a + 1, b);
    } else if b < a {
      Multiples(base, b + 1, a);
    }
  }

  lemma Multiples(base: nat, a: nat, b: nat)
    requires a <= b
    ensures a * base <= b * base && (a >= 1 ==> (a - 1) * base + base == a * base)
  {
  }

  lemma NextMultiple(k: nat, base: nat)
    ensures (k + 1) * base == k * base + base
  {
  }

  /** Digits of one length are determined by the number they spell. */
  lemma {:induction false} DigitsUnique(c: seq<nat>, d: seq<nat>, base: nat)
    requires |c| == |d| && Digits(c, base) && Digits(d, base) && Value(c, base) == Value(d, base)
    ensures c == d
  {
    if c != [] {
      var n := |c| - 1;
      DivisionTells(base, Value(c[..n], base), c[n], Value(d[..n], base), d[n]);
      DigitsUnique(c[..n], d[..n], base);
      assert c == c[..n] + [c[n]] && d == d[..n] + [d[n]];
    }
  }

  // --- regrouping ---

  // Full groups, and the number and value of the bits left over.
  datatype Regrouped = Regrouped(full: seq<nat>, bits: nat, pending: nat)

  // Full groups are taken off the pending bits.
  function Emit(g: Regrouped, to: nat): Regrouped
    decreases g.bits
  {
    if to == 0 || g.bits < to then g
    else
      var w := Two(g.bits - to);
      TwoPositive(g.bits - to);
      Emit(Regrouped(g.full + [g.pending / w], g.bits - to, g.pending % w), to)
  }

  function Regroup(data: seq<nat>, from: nat, to: nat): Regrouped {
    if data == [] then Regrouped([], 0, 0)
    else
      var g := Regroup(data[..|data| - 1], from, to);
      Emit(Regrouped(g.full, g.bits + from, g.pending * Two(from) + data[|data| - 1]), to)
  }

  /** The result of convertbits; None for a value out of range, or padding that is not zero or too long. */
  function Converted(data: seq<nat>, from: nat, to: nat, pad: bool): Option<seq<nat>> {
    if exists i :: 0 <= i < |data| && data[i] >= Two(from) then None
    else
      var g := Regroup(data, from, to);
      if pad then Some(if g.bits > 0 then g.full + [g.pending * Two(if g.bits <= to then to - g.bits else 0)]
                       else g.full)
      else if g.bits >= from || g.pending != 0 then None
      else Some(g.full)
  }

  // The groups spell the same number as the data, leftover bits included.
  ghost predicate Spells(value: nat, width: nat, g: Regrouped, to: nat) {
    && g.bits < to && width == |g.full| * to + g.bits && g.pending < Two(g.bits)
    && Digits(g.full, Two(to)) && value == Value(g.full, Two(to)) * Two(g.bits) + g.pending
  }

  // Before the full groups are taken off.
  ghost predicate SpellsOpen(value: nat, width: nat, g: Regrouped, to: nat) {
    && width == |g.full| * to + g.bits && g.pending < Two(g.bits)
    && Digits(g.full, Two(to)) && value == Value(g.full, Two(to)) * Two(g.bits) + g.pending
  }

  lemma EmitOne(value: nat, width: nat, g: Regrouped, to: nat)
    requires SpellsOpen(value, width, g, to) && 0 < to <= g.bits
    ensures Two(g.bits - to) > 0
    ensures var w := Two(g.bits - to);
            SpellsOpen(value, width, Regrouped(g.full + [g.pending / w], g.bits - to, g.pending % w), to)
  {
    var k: nat := g.bits - to;
    var w, t := Two(k), Two(to);
    TwoPositive(k);
    TwoAdds(to, k);
    var d, p := g.pending / w, g.pending % w;
    ValueMore(g.full, d, t);
    NextMultiple(|g.full|, to);
    hide Value, Two;
    QuotientBelow(g.pending, w, t);
    Divided(g.pending, w, d, p);
    Distributes(Value(g.full, t), t, w, d);
  }

  lemma Divided(x: nat, w: nat, d: nat, p: nat)
    requires w > 0 && d == x / w && p == x % w
    ensures x == d * w + p && p < w
  {
  }

  lemma QuotientBelow(x: nat, w: nat, t: nat)
    requires w > 0 && x < t * w
    ensures x / w < t
  {
    var d := x / w;
    if d >= t { Multiples(w, t, d); }
  }

  lemma Distributes(v: nat, t: nat, w: nat, d: nat)
    ensures (v * t + d) * w == v * (t * w) + d * w
  {
    assert v * t * w == v * (t * w);
  }

  lemma {:induction false} EmitSpells(value: nat, width: nat, g: Regrouped, to: nat)
    requires SpellsOpen(value, width, g, to) && to > 0
    ensures Spells(value, width, Emit(g, to), to)
    decreases g.bits
  {
    if g.bits >= to {
      EmitOne(value, width, g, to);
      var w := Two(g.bits - to);
      EmitSpells(value, width, Regrouped(g.full + [g.pending / w], g.bits - to, g.pending % w), to);
    }
  }

  lemma PushSpells(value: nat, width: nat, g: Regrouped, from: nat, to: nat, x: nat)
    requires Spells(value, width, g, to) && x < Two(from)
    ensures SpellsOpen(value * Two(from) + x, width + from,
                       Regrouped(g.full, g.bits + from, g.pending * Two(from) + x), to)
  {
    TwoAdds(g.bits, from);
    var v, b, f := Value(g.full, Two(to)), Two(g.bits), Two(from);
    hide Value, Two;
    Distributes(v, b, f, g.pending);
    Multiples(f, g.pending + 1, b);
    assert (g.pending + 1) * f == g.pending * f + f;
  }

  lemma RegroupStep(front: seq<nat>, x: nat, from: nat, to: nat, width: nat)
    requires to > 0 && x < Two(from) && Spells(Value(front, Two(from)), width, Regroup(front, from, to), to)
    ensures Spells(Value(front + [x], Two(from)), width + from, Regroup(front + [x], from, to), to)
  {
    hide Spells, SpellsOpen, Emit, Two, Regroup, Value;
    var data := front + [x];
    assert data[..|front|] == front && data[..|front| + 1] == data;
    RegroupMore(data, from, to, |front|);
    ValueMore(front, x, Two(from));
    var g, v := Regroup(front, from, to), Value(front, Two(from));
    PushSpells(v, width, g, from, to, x);
    EmitSpells(v * Two(from) + x, width + from, Regrouped(g.full, g.bits + from, g.pending * Two(from) + x), to);
  }

  /** Regrouping keeps the number and the width. */
  lemma {:induction false} RegroupSpells(data: seq<nat>, from: nat, to: nat)
    requires to > 0 && Digits(data, Two(from))
    ensures Spells(Value(data, Two(from)), |data| * from, Regroup(data, from, to), to)
  {
    if data == [] {
      assert Two(0) == 1;
    } else {
      hide Spells, Two, Regroup, Value;
      var n: nat := |data| - 1;
      var front, x := data[..n], data[n];
      RegroupSpells(front, from, to);
      assert front + [x] == data;
      RegroupStep(front, x, from, to, n * from);
      NextMultiple(n, from);
    }
  }

  lemma RegroupMore(data: seq<nat>, from: nat, to: nat, i: nat)
    requires i < |data|
    ensures var g := Regroup(data[..i], from, to);
            Regroup(data[..i + 1], from, to)
            == Emit(Regrouped(g.full, g.bits + from, g.pending * Two(from) + data[i]), to)
  {
    assert data[..i + 1][..i] == data[..i];
    hide Emit, Two;
  }

  // --- the loop ---

  // The accumulator holds the pending bits, below some older ones.
  ghost predicate Holds(acc: nat, older: nat, bits: nat, pending: nat) {
    acc == older * Two(bits) + pending && pending < Two(bits)
  }

  // Taking a value in, and masking to from + to - 1 bits.
  lemma TakeIn(acc: nat, older: nat, bits: nat, pending: nat, from: nat, to: nat, x: nat) returns (rest: nat)
    requires Holds(acc, older, bits, pending) && bits < to && x < Two(from)
    ensures Two(from + to - 1) > 0
    ensures Holds((acc * Two(from) + x) % Two(from + to - 1), rest, bits + from, pending * Two(from) + x)
  {
    var y := acc * Two(from) + x;
    var more: nat := to - 1 - bits;
    TwoAdds(bits, from);
    TwoAdds(bits + from, more);
    TwoPositive(from + to - 1);
    TwoPositive(more);
    assert bits + from + more == from + to - 1;
    var b, f, e, m := Two(bits), Two(from), Two(more), Two(bits + from);
    var q := pending * f + x;
    hide Two;
    Distributes(older, b, f, pending);
    Multiples(f, pending + 1, b);
    assert (pending + 1) * f == pending * f + f;
    assert y == older * m + q && q < m;
    rest := MaskLeaves(y, older, m, q, e);
  }

  lemma MaskLeaves(y: nat, older: nat, m: nat, q: nat, e: nat) returns (rest: nat)
    requires m > 0 && e > 0 && y == older * m + q && q < m
    ensures m * e > 0 && y % (m * e) == rest * m + q
  {
    Multiples(m, 1, e);
    assert m * e == e * m;
    var j := y / (m * e);
    var r := y % (m * e);
    assert y == j * (m * e) + r;
    assert j * (m * e) == (j * e) * m;
    assert r == older * m - (j * e) * m + q;
    assert older * m - (j * e) * m == (older - j * e) * m;
    var d := older - j * e;
    BelowZero(d, m);
    rest := d;
  }

  lemma BelowZero(d: int, m: nat)
    ensures d <= -1 ==> d * m + m <= 0
  {
  }

  // One group out of the accumulator.
  lemma TakeOut(acc: nat, older: nat, bits: nat, pending: nat, to: nat)
    requires Holds(acc, older, bits, pending) && 0 < to <= bits
    ensures Two(bits - to) > 0 && Two(to) > 0
    ensures (acc / Two(bits - to)) % Two(to) == pending / Two(bits - to)
    ensures Holds(acc, older * Two(to) + pending / Two(bits - to), bits - to, pending % Two(bits - to))
  {
    var k: nat := bits - to;
    TwoPositive(k);
    TwoPositive(to);
    TwoAdds(to, k);
    var w, t := Two(k), Two(to);
    var d, p := pending / w, pending % w;
    hide Two;
    QuotientBelow(pending, w, t);
    Distributes(older, t, w, d);
    assert acc == (older * t + d) * w + p;
    DivideIs(acc, w, older * t + d, p);
    DivideIs(older * t + d, t, older, d);
  }

  lemma DivideIs(x: nat, w: nat, q: nat, r: nat)
    requires w > 0 && r < w && x == q * w + r
    ensures x / w == q && x % w == r
  {
    DivisionTells(w, x / w, x % w, q, r);
  }

  /** convertbits */
  method Convert(data: seq<nat>, from: nat, to: nat, pad: bool) returns (ret: Option<seq<nat>>)
    requires from > 0 && to > 0
    ensures ret == Converted(data, from, to, pad)
  {
    hide Two, Regroup, Emit, Holds;
    var acc: nat, bits: nat := 0, 0;
    var out: seq<nat> := [];
    ghost var older: nat, g := 0, Regrouped([], 0, 0);
    TwoPositive(0);
    NoneYet(data, from, to);
    for i := 0 to |data|
      invariant forall j :: 0 <= j < i ==> data[j] < Two(from)
      invariant g == Regroup(data[..i], from, to) && out == g.full && bits == g.bits < to
                && Holds(acc, older, bits, g.pending)
    {
      if data[i] >= Two(from) {
        return None;
      }
      RegroupMore(data, from, to, i);
      older := TakeIn(acc, older, bits, g.pending, from, to, data[i]);
      acc := (acc * Two(from) + data[i]) % Two(from + to - 1);
      g := Regrouped(g.full, g.bits + from, g.pending * Two(from) + data[i]);
      out, bits, older := EmitGroups(acc, out, bits + from, to, g, older);
      g := Emit(g, to);
    }
    assert data[..|data|] == data;
    ret := Finish(data, from, to, pad, acc, bits, out, g, older);
  }

  // The padding, or its check.
  method Finish(ghost data: seq<nat>, from: nat, to: nat, pad: bool, acc: nat, bits: nat, out: seq<nat>,
                ghost g: Regrouped, ghost older: nat)
    returns (ret: Option<seq<nat>>)
    requires bits < to && Digits(data, Two(from)) && g == Regroup(data, from, to)
    requires out == g.full && bits == g.bits && Holds(acc, older, bits, g.pending)
    ensures ret == Converted(data, from, to, pad)
  {
    hide Two, Regroup, Holds;
    PadValue(acc, older, bits, g.pending, to);
    var padding := (acc * Two(to - bits)) % Two(to);
    if pad {
      if bits > 0 {
        return Some(out + [padding]);
      }
      return Some(out);
    }
    if bits >= from || padding != 0 {
      return None;
    }
    ret := Some(out);
  }

  lemma NoneYet(data: seq<nat>, from: nat, to: nat)
    ensures Regroup(data[..0], from, to) == Regrouped([], 0, 0) && Holds(0, 0, 0, 0)
  {
    assert Two(0) == 1;
  }

  lemma PadValue(acc: nat, older: nat, bits: nat, pending: nat, to: nat)
    requires Holds(acc, older, bits, pending) && bits < to
    ensures Two(to) > 0 && (acc * Two(to - bits)) % Two(to) == pending * Two(to - bits)
    ensures pending * Two(to - bits) == 0 <==> pending == 0
  {
    var k: nat := to - bits;
    TwoPositive(to);
    TwoPositive(k);
    TwoAdds(bits, k);
    var b, e, t := Two(bits), Two(k), Two(to);
    hide Two;
    Distributes(older, b, e, pending);
    Multiples(e, pending + 1, b);
    assert (pending + 1) * e == pending * e + e;
    DivideIs(acc * e, t, older, pending * e);
  }

  // The inner loop: groups come out while there are enough bits.
  method EmitGroups(acc: nat, before: seq<nat>, count: nat, to: nat, ghost g: Regrouped, ghost old0: nat)
    returns (out: seq<nat>, bits: nat, ghost older: nat)
    requires to > 0 && before == g.full && count == g.bits && Holds(acc, old0, count, g.pending)
    ensures out == Emit(g, to).full && bits == Emit(g, to).bits < to && Holds(acc, older, bits, Emit(g, to).pending)
  {
    hide Two, Holds;
    ghost var h := g;
    out, bits, older := before, count, old0;
    while bits >= to
      invariant Emit(h, to) == Emit(g, to) && out == h.full && bits == h.bits && Holds(acc, older, bits, h.pending)
      decreases bits
    {
      TakeOut(acc, older, bits, h.pending, to);
      ghost var w := Two(bits - to);
      bits := bits - to;
      out := out + [(acc / Two(bits)) % Two(to)];
      older := older * Two(to) + h.pending / w;
      h := Regrouped(h.full + [h.pending / w], h.bits - to, h.pending % w);
    }
  }

  // --- there and back ---

  lemma ScaleBack(v: nat, z: nat, w: nat, p: nat)
    requires p < z && v * z == w * z + p
    ensures w == v && p == 0
  {
    DivisionTells(z, v, 0, w, p);
  }

  /** Padding out: the digits spell the number times a power of two, over the width plus less than one
      group. */
  lemma PaddedSpells(data: seq<nat>, from: nat, to: nat)
    requires from > 0 && to > 0 && Digits(data, Two(from))
    ensures Converted(data, from, to, true).Some?
    ensures var out := Converted(data, from, to, true).value;
            |out| * to >= |data| * from && |out| * to - |data| * from < to && Digits(out, Two(to))
    ensures var out := Converted(data, from, to, true).value;
            var z: nat := |out| * to - |data| * from;
            Value(out, Two(to)) == Value(data, Two(from)) * Two(z)
  {
    RegroupSpells(data, from, to);
    DigitsInRange(data, Two(from));
    var g := Regroup(data, from, to);
    hide Regroup, Value, Two;
    if g.bits > 0 {
      PadSpells(Value(data, Two(from)), |data| * from, g, to);
    } else {
      assert Two(0) == 1 by { TwoZero(); }
    }
  }

  lemma TwoZero()
    ensures Two(0) == 1
  {
  }

  lemma PadSpells(value: nat, width: nat, g: Regrouped, to: nat)
    requires Spells(value, width, g, to) && g.bits > 0
    ensures var z: nat := to - g.bits;
            var out := g.full + [g.pending * Two(z)];
            |out| * to == width + z && Digits(out, Two(to)) && Value(out, Two(to)) == value * Two(z)
  {
    var z: nat := to - g.bits;
    TwoAdds(g.bits, z);
    TwoPositive(z);
    var t, e, b, n := Two(to), Two(z), Two(g.bits), |g.full|;
    var v := Value(g.full, t);
    ValueMore(g.full, g.pending * e, t);
    hide Two, Value;
    Distributes(v, b, e, g.pending);
    Multiples(e, g.pending + 1, b);
    NextMultiple(g.pending, e);
    NextMultiple(n, to);
  }

  /** Regrouping to smaller groups with padding and back without is the identity. */
  lemma ThereAndBack(data: seq<nat>, a: nat, b: nat)
    requires 0 < b <= a && Digits(data, Two(a))
    ensures Converted(data, a, b, true).Some?
    ensures Converted(Converted(data, a, b, true).value, b, a, false) == Some(data)
  {
    PaddedSpells(data, a, b);
    var out := Converted(data, a, b, true).value;
    RegroupSpells(out, b, a);
    var g := Regroup(out, b, a);
    var z: nat := |out| * b - |data| * a;
    hide Value, Two, Regroup, Digits;
    DivisionTells(a, |data|, z, |g.full|, g.bits);
    ScaleBack(Value(data, Two(a)), Two(z), Value(g.full, Two(a)), g.pending);
    DigitsUnique(data, g.full, Two(a));
    DigitsInRange(out, Two(b));
  }

  lemma DigitsInRange(d: seq<nat>, base: nat)
    ensures Digits(d, base) <==> !exists i :: 0 <= i < |d| && d[i] >= base
  {
  }

  /** And the other way round, for groups whose padding is acceptable. */
  lemma BackAndThere(data: seq<nat>, a: nat, b: nat)
    requires 0 < b <= a && Digits(data, Two(b)) && Converted(data, b, a, false).Some?
    ensures var out := Converted(data, b, a, false).value;
            Digits(out, Two(a)) && |out| * a <= |data| * b && Converted(out, a, b, true) == Some(data)
  {
    RegroupSpells(data, b, a);
    var g := Regroup(data, b, a);
    PaddedSpells(g.full, a, b);
    var back := Converted(g.full, a, b, true).value;
    var z: nat := |back| * b - |g.full| * a;
    hide Value, Two, Regroup, Digits;
    SameWidth(|data|, |back|, |g.full| * a, g.bits, z, b);
    DigitsUnique(data, back, Two(b));
  }

  lemma SameWidth(m: nat, n: nat, w: nat, r: nat, z: nat, b: nat)
    requires r < b && z < b && m * b == w + r && n * b == w + z
    ensures m == n && r == z
  {
    NextMultiple(m, b);
    NextMultiple(n, b);
    if m < n {
      Multiples(b, m + 1, n);
    } else if n < m {
      Multiples(b, n + 1, m);
    }
  }
}
