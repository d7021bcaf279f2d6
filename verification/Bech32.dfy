/** Bech32 strings and their checksum (test/python/apps/bitcoin_client/ledger_bitcoin/segwit_addr.py,
    BIP 173, BIP 350). */
module Bech32 {
  import opened Common

  // --- exclusive or on the 30 bits of the checksum ---

  type Checksum = bv30

  function Xor(a: Checksum, b: Checksum): Checksum { a ^ b }

  lemma XorZero(a: Checksum)
    ensures Xor(a, 0) == a && Xor(0, a) == a && Xor(a, a) == 0
  {
  }

  lemma XorAssociates(a: Checksum, b: Checksum, c: Checksum)
    ensures Xor(Xor(a, b), c) == Xor(a, Xor(b, c))
  {
  }

  lemma XorCommutes(a: Checksum, b: Checksum)
    ensures Xor(a, b) == Xor(b, a)
  {
  }

  lemma XorSwaps(a: Checksum, b: Checksum, c: Checksum)
    ensures Xor(Xor(a, b), c) == Xor(Xor(a, c), b)
  {
    hide Xor;
    XorAssociates(a, b, c);
    XorAssociates(a, c, b);
    XorCommutes(b, c);
  }

  lemma XorPairs(a: Checksum, b: Checksum, c: Checksum, d: Checksum)
    ensures Xor(Xor(a, b), Xor(c, d)) == Xor(Xor(a, c), Xor(b, d))
  {
    hide Xor;
    XorAssociates(Xor(a, b), c, d);
    XorAssociates(Xor(a, c), b, d);
    XorSwaps(a, b, c);
  }

  lemma XorCancels(a: Checksum, b: Checksum)
    ensures Xor(Xor(a, b), b) == a && (Xor(a, b) == 0 ==> a == b)
  {
    hide Xor;
    XorAssociates(a, b, b);
    XorZero(a);
    XorZero(b);
  }

  // --- the checksum ---

  const BECH32M_CONST: Checksum := 0x2bc830a3

  predicate Odd(x: Checksum) { x & 1 == 1 }

  // The generator term that goes with the lowest bit of x.
  function Term(x: Checksum, g: Checksum): Checksum { if Odd(x) then g else 0 }

  function Right(x: Checksum, i: nat): Checksum
    requires i <= 30
  {
    x >> i
  }

  function Low(s: Checksum): Checksum { (s & 0x1ffffff) << 5 }

  const G0: Checksum := 0x3b6a57b2
  const G1: Checksum := 0x26508e6d
  const G2: Checksum := 0x1ea119fa
  const G3: Checksum := 0x3d4233dd
  const G4: Checksum := 0x2a1462b3

  function Generator(i: nat): Checksum {
    match i case 0 => G0 case 1 => G1 case 2 => G2 case 3 => G3 case _ => G4
  }

  // The first i terms of the feedback.
  function Terms(top: Checksum, i: nat): Checksum
    requires i <= 5
  {
    if i == 0 then 0 else Xor(Terms(top, i - 1), Term(Right(top, i - 1), Generator(i - 1)))
  }

  // Shifting a zero symbol in.
  function Shift(s: Checksum): Checksum { Xor(Low(s), Terms(Right(s, 25), 5)) }

  type Five = x: int | 0 <= x < 32

  // Five bits.
  function Bits5(b0: bool, b1: bool, b2: bool, b3: bool, b4: bool): Checksum {
    (if b0 then 1 else 0) | (if b1 then 2 else 0) | (if b2 then 4 else 0) | (if b3 then 8 else 0)
    | (if b4 then 16 else 0)
  }

  // A symbol as bits of the checksum, and back.
  function Symbol(v: Five): Checksum { Bits5(v % 2 == 1, v / 2 % 2 == 1, v / 4 % 2 == 1, v / 8 % 2 == 1, v / 16 == 1) }

  function Weight(b: bool, w: nat): nat { if b then w else 0 }

  function Number(b0: bool, b1: bool, b2: bool, b3: bool, b4: bool): Five {
    Weight(b0, 1) + Weight(b1, 2) + Weight(b2, 4) + Weight(b3, 8) + Weight(b4, 16)
  }

  function FromBits(b: Checksum): Five { Number(b & 1 != 0, b & 2 != 0, b & 4 != 0, b & 8 != 0, b & 16 != 0) }

  lemma NumberBits(b0: bool, b1: bool, b2: bool, b3: bool, b4: bool)
    ensures Symbol(Number(b0, b1, b2, b3, b4)) == Bits5(b0, b1, b2, b3, b4)
  {
    hide Bits5;
  }

  lemma NumberOf(v: Five)
    ensures Number(v % 2 == 1, v / 2 % 2 == 1, v / 4 % 2 == 1, v / 8 % 2 == 1, v / 16 == 1) == v
  {
  }

  lemma BitsOf5(b0: bool, b1: bool, b2: bool, b3: bool, b4: bool)
    ensures var b := Bits5(b0, b1, b2, b3, b4);
            b < 32 && (b & 1 != 0) == b0 && (b & 2 != 0) == b1 && (b & 4 != 0) == b2 && (b & 8 != 0) == b3
              && (b & 16 != 0) == b4
  {
  }

  lemma Bits5Of(b: Checksum)
    requires b < 32
    ensures Bits5(b & 1 != 0, b & 2 != 0, b & 4 != 0, b & 8 != 0, b & 16 != 0) == b
  {
  }

  lemma SymbolBits(b: Checksum)
    requires b < 32
    ensures Symbol(FromBits(b)) == b
  {
    hide Bits5, Number, Symbol;
    NumberBits(b & 1 != 0, b & 2 != 0, b & 4 != 0, b & 8 != 0, b & 16 != 0);
    Bits5Of(b);
  }

  lemma BitsSymbol(v: Five)
    ensures Symbol(v) < 32 && FromBits(Symbol(v)) == v
  {
    hide Bits5, Number;
    BitsOf5(v % 2 == 1, v / 2 % 2 == 1, v / 4 % 2 == 1, v / 8 % 2 == 1, v / 16 == 1);
    NumberOf(v);
  }

  function Polymod(s: Checksum, values: seq<Five>): Checksum
    decreases |values|
  {
    if values == [] then s else Polymod(Xor(Shift(s), Symbol(values[0])), values[1..])
  }

  /** bech32_polymod */
  method PolymodLoop(values: seq<Five>) returns (chk: Checksum)
    ensures chk == Polymod(1, values)
  {
    hide Shift, Symbol, Xor;
    chk := 1;
    for j := 0 to |values|
      invariant Polymod(chk, values[j..]) == Polymod(1, values)
    {
      assert values[j..][0] == values[j] && values[j..][1..] == values[j + 1..];
      chk := OneValue(chk, Symbol(values[j]));
    }
  }

  // One value: the shift, and the inner loop over the generator.
  method OneValue(s: Checksum, value: Checksum) returns (chk: Checksum)
    ensures chk == Xor(Shift(s), value)
  {
    hide Xor, Term, Low, Right, Generator;
    var top := Right(s, 25);
    var start := Xor(Low(s), value);
    chk := start;
    XorZero(start);
    for i := 0 to 5
      invariant chk == Xor(start, Terms(top, i))
    {
      XorAssociates(start, Terms(top, i), Term(Right(top, i), Generator(i)));
      chk := Xor(chk, Term(Right(top, i), Generator(i)));
    }
    XorSwaps(Low(s), value, Terms(top, 5));
  }

  // --- XOR-linearity ---

  lemma OddXor(a: Checksum, b: Checksum)
    ensures Odd(Xor(a, b)) <==> Odd(a) != Odd(b)
  {
  }

  lemma TermLinear(a: Checksum, b: Checksum, g: Checksum)
    ensures Term(Xor(a, b), g) == Xor(Term(a, g), Term(b, g))
  {
    hide Xor, Odd;
    OddXor(a, b);
    XorZero(g);
    XorZero(0);
  }

  lemma LowLinear(a: Checksum, b: Checksum)
    ensures Low(Xor(a, b)) == Xor(Low(a), Low(b))
  {
  }

  lemma RightLinear(a: Checksum, b: Checksum, i: nat)
    requires i < 5 || i == 25
    ensures Right(Xor(a, b), i) == Xor(Right(a, i), Right(b, i))
  {
    hide Xor, Right;
    match i {
      case 0 => RightLinear0(a, b);
      case 1 => RightLinear1(a, b);
      case 2 => RightLinear2(a, b);
      case 3 => RightLinear3(a, b);
      case 4 => RightLinear4(a, b);
      case _ => RightLinear25(a, b);
    }
  }

  lemma RightLinear0(a: Checksum, b: Checksum)
    ensures Right(Xor(a, b), 0) == Xor(Right(a, 0), Right(b, 0))
  {
    Shifted0(a, b);
    assert Right(a ^ b, 0) == (a ^ b) >> 0;
    assert Right(a, 0) == a >> 0;
    assert Right(b, 0) == b >> 0;
    hide Right;
  }

  lemma Shifted0(a: Checksum, b: Checksum)
    ensures (a ^ b) >> 0 == (a >> 0) ^ (b >> 0)
  {
  }

  lemma RightLinear1(a: Checksum, b: Checksum)
    ensures Right(Xor(a, b), 1) == Xor(Right(a, 1), Right(b, 1))
  {
    Shifted1(a, b);
    assert Right(a ^ b, 1) == (a ^ b) >> 1;
    assert Right(a, 1) == a >> 1;
    assert Right(b, 1) == b >> 1;
    hide Right;
  }

  lemma Shifted1(a: Checksum, b: Checksum)
    ensures (a ^ b) >> 1 == (a >> 1) ^ (b >> 1)
  {
  }

  lemma RightLinear2(a: Checksum, b: Checksum)
    ensures Right(Xor(a, b), 2) == Xor(Right(a, 2), Right(b, 2))
  {
    Shifted2(a, b);
    assert Right(a ^ b, 2) == (a ^ b) >> 2;
    assert Right(a, 2) == a >> 2;
    assert Right(b, 2) == b >> 2;
    hide Right;
  }

  lemma Shifted2(a: Checksum, b: Checksum)
    ensures (a ^ b) >> 2 == (a >> 2) ^ (b >> 2)
  {
  }

  lemma RightLinear3(a: Checksum, b: Checksum)
    ensures Right(Xor(a, b), 3) == Xor(Right(a, 3), Right(b, 3))
  {
    Shifted3(a, b);
    assert Right(a ^ b, 3) == (a ^ b) >> 3;
    assert Right(a, 3) == a >> 3;
    assert Right(b, 3) == b >> 3;
    hide Right;
  }

  lemma Shifted3(a: Checksum, b: Checksum)
    ensures (a ^ b) >> 3 == (a >> 3) ^ (b >> 3)
  {
  }

  lemma RightLinear4(a: Checksum, b: Checksum)
    ensures Right(Xor(a, b), 4) == Xor(Right(a, 4), Right(b, 4))
  {
    Shifted4(a, b);
    assert Right(a ^ b, 4) == (a ^ b) >> 4;
    assert Right(a, 4) == a >> 4;
    assert Right(b, 4) == b >> 4;
    hide Right;
  }

  lemma Shifted4(a: Checksum, b: Checksum)
    ensures (a ^ b) >> 4 == (a >> 4) ^ (b >> 4)
  {
  }

  lemma RightLinear25(a: Checksum, b: Checksum)
    ensures Right(Xor(a, b), 25) == Xor(Right(a, 25), Right(b, 25))
  {
    Shifted25(a, b);
    assert Right(a ^ b, 25) == (a ^ b) >> 25;
    assert Right(a, 25) == a >> 25;
    assert Right(b, 25) == b >> 25;
    hide Right;
  }

  lemma Shifted25(a: Checksum, b: Checksum)
    ensures (a ^ b) >> 25 == (a >> 25) ^ (b >> 25)
  {
  }

  lemma {:induction false} TermsLinear(a: Checksum, b: Checksum, i: nat)
    requires i <= 5
    ensures Terms(Xor(a, b), i) == Xor(Terms(a, i), Terms(b, i))
  {
    hide Xor, Term, Right, Generator;
    if i == 0 {
      XorZero(0);
    } else {
      var k: nat := i - 1;
      TermsLinear(a, b, k);
      RightLinear(a, b, k);
      TermLinear(Right(a, k), Right(b, k), Generator(k));
      XorPairs(Terms(a, k), Terms(b, k), Term(Right(a, k), Generator(k)), Term(Right(b, k), Generator(k)));
    }
  }

  /** Shifting is linear over XOR. */
  lemma ShiftLinear(a: Checksum, b: Checksum)
    ensures Shift(Xor(a, b)) == Xor(Shift(a), Shift(b))
  {
    hide Xor, Low, Terms, Right;
    LowLinear(a, b);
    RightLinear(a, b, 25);
    TermsLinear(Right(a, 25), Right(b, 25), 5);
    XorPairs(Low(a), Low(b), Terms(Right(a, 25), 5), Terms(Right(b, 25), 5));
  }

  // A state below 25 bits is shifted without feedback.
  lemma {:induction false} NoTerms(i: nat)
    requires i <= 5
    ensures Terms(0, i) == 0
  {
    hide Xor, Generator;
    XorZero(0);
    if i > 0 {
      NoTerms(i - 1);
      NothingOdd(i - 1);
    }
  }

  lemma NothingOdd(i: nat)
    requires i < 5
    ensures !Odd(Right(0, i))
  {
    match i {
      case 0 => assert (0 as Checksum) >> 0 == 0;
      case 1 => assert (0 as Checksum) >> 1 == 0;
      case 2 => assert (0 as Checksum) >> 2 == 0;
      case 3 => assert (0 as Checksum) >> 3 == 0;
      case _ => assert (0 as Checksum) >> 4 == 0;
    }
  }

  lemma ShiftSmall(x: Checksum)
    requires x < 0x2000000
    ensures Shift(x) == x << 5
  {
    assert Right(x, 25) == 0;
    NoTerms(5);
    hide Xor, Terms;
    XorZero(Low(x));
    assert Low(x) == x << 5;
  }

  function Up5(x: Checksum): Checksum { x << 5 }
  function Down5(x: Checksum): Checksum { x >> 5 }
  function Last5(x: Checksum): Checksum { x & 31 }

  // The first k of the six symbols that make up a checksum, as a state.
  function Front(pm: Checksum, k: nat): Checksum
    requires k <= 6
    decreases 6 - k
  {
    if k == 6 then pm else Down5(Front(pm, k + 1))
  }

  // Symbol i.
  function Part(pm: Checksum, i: nat): Five
    requires i < 6
  {
    FromBits(Last5(Front(pm, i + 1)))
  }

  function Parts(pm: Checksum): seq<Five> { seq(6, i requires 0 <= i < 6 => Part(pm, i)) }

  lemma SplitLow(y: Checksum)
    ensures Down5(y) < 0x2000000 && Last5(y) < 32 && Xor(Up5(Down5(y)), Last5(y)) == y
  {
  }

  lemma JoinLow(x: Checksum, c: Checksum)
    requires x < 0x2000000 && c < 32
    ensures Down5(Xor(Up5(x), c)) == x && Last5(Xor(Up5(x), c)) == c
  {
  }

  lemma Downs(pm: Checksum)
    ensures Down5(pm) == pm >> 5 && Down5(pm >> 5) == pm >> 10 && Down5(pm >> 10) == pm >> 15
    ensures Down5(pm >> 15) == pm >> 20 && Down5(pm >> 20) == pm >> 25 && Down5(pm >> 25) == 0
  {
  }

  // Front at each place, as shifts.
  lemma Fronts(pm: Checksum)
    ensures Front(pm, 6) == pm && Front(pm, 5) == pm >> 5 && Front(pm, 4) == pm >> 10 && Front(pm, 3) == pm >> 15
    ensures Front(pm, 2) == pm >> 20 && Front(pm, 1) == pm >> 25 && Front(pm, 0) == 0
  {
    hide Down5;
    Downs(pm);
    assert Front(pm, 5) == Down5(Front(pm, 6));
    assert Front(pm, 4) == Down5(Front(pm, 5));
    assert Front(pm, 3) == Down5(Front(pm, 4));
    assert Front(pm, 2) == Down5(Front(pm, 3));
    assert Front(pm, 1) == Down5(Front(pm, 2));
    assert Front(pm, 0) == Down5(Front(pm, 1));
  }

  lemma ShiftUp(x: Checksum)
    requires x < 0x2000000
    ensures Shift(x) == Up5(x)
  {
    ShiftSmall(x);
    hide Shift;
  }

  lemma FrontStep(pm: Checksum, k: nat)
    requires k < 6
    ensures Xor(Shift(Front(pm, k)), Symbol(Part(pm, k))) == Front(pm, k + 1)
  {
    var y := Front(pm, k + 1);
    SplitLow(y);
    SymbolBits(Last5(y));
    ShiftSmall(Down5(y));
    assert Shift(Down5(y)) == Up5(Down5(y));
    hide Symbol, FromBits, Xor, Shift, Up5, Down5, Last5;
  }

  // Folding the parts gives the checksum.
  lemma {:induction false} FoldParts(pm: Checksum, k: nat)
    requires k <= 6
    ensures Polymod(Front(pm, k), Parts(pm)[k..]) == pm
    decreases 6 - k
  {
    hide Shift, Xor, Symbol, Part;
    if k == 6 {
      assert Front(pm, 6) == pm;
    } else {
      hide Front;
      FrontStep(pm, k);
      var rest := Parts(pm)[k..];
      assert rest[0] == Part(pm, k) && rest[1..] == Parts(pm)[k + 1..];
      FoldParts(pm, k + 1);
    }
  }

  function Zeros5(n: nat): seq<Five> { seq(n, _ => 0) }

  lemma SymbolZero()
    ensures Symbol(0) == 0
  {
  }

  /** The checksum of a sum is the sum of the checksums: the state and the values contribute apart. */
  lemma {:induction false} PolymodSplits(s: Checksum, t: Checksum, values: seq<Five>)
    ensures Polymod(Xor(s, t), values) == Xor(Polymod(s, Zeros5(|values|)), Polymod(t, values))
    decreases |values|
  {
    hide Shift, Xor, Symbol;
    var z := Zeros5(|values|);
    if values == [] {
    } else {
      var v := Symbol(values[0]);
      ShiftLinear(s, t);
      XorAssociates(Shift(s), Shift(t), v);
      PolymodSplits(Shift(s), Xor(Shift(t), v), values[1..]);
      SymbolZero();
      XorZero(Shift(s));
      assert z[0] == 0 && z[1..] == Zeros5(|values| - 1);
    }
  }

  lemma {:induction false} PolymodJoins(s: Checksum, a: seq<Five>, b: seq<Five>)
    ensures Polymod(s, a + b) == Polymod(Polymod(s, a), b)
    decreases |a|
  {
    hide Shift, Xor, Symbol;
    if a == [] {
      assert a + b == b;
    } else {
      assert (a + b)[0] == a[0] && (a + b)[1..] == a[1..] + b;
      PolymodJoins(Xor(Shift(s), Symbol(a[0])), a[1..], b);
    }
  }

  // What six symbols contribute.
  function Contribution(c: seq<Five>): Checksum { Polymod(0, c) }

  lemma PartsContribute(pm: Checksum)
    ensures Contribution(Parts(pm)) == pm
  {
    Fronts(pm);
    assert Parts(pm)[0..] == Parts(pm);
    FoldParts(pm, 0);
  }

  // The state after some values and six more symbols.
  lemma Checksummed(values: seq<Five>, c: seq<Five>)
    requires |c| == 6
    ensures Polymod(1, values + c) == Xor(Polymod(1, values + Zeros5(6)), Contribution(c))
  {
    hide Xor, Polymod;
    var s := Polymod(1, values);
    PolymodJoins(1, values, c);
    PolymodJoins(1, values, Zeros5(6));
    PolymodSplits(s, 0, c);
    XorZero(s);
  }

  // Six symbols are told from what they contribute.
  lemma ContributionTells(c: seq<Five>)
    requires |c| == 6
    ensures Parts(Contribution(c)) == c
  {
    hide Shift, Xor, Symbol, Down5, Last5, Front, FromBits, Up5;
    var pm := Contribution(c);
    Fronts(pm);
    forall i | 0 <= i < 6
      ensures Part(pm, i) == c[i]
    {
      PartOfFold(c, i);
    }
  }

  // The states on the way to the contribution are its fronts.
  lemma {:induction false} FoldFront(c: seq<Five>, k: nat)
    requires |c| == 6 && k <= 6
    ensures Front(Contribution(c), k) == Polymod(0, c[..k])
    decreases 6 - k
  {
    hide Shift, Xor, Symbol, Down5, Last5, Up5;
    if k == 6 {
      assert c[..6] == c;
    } else {
      FoldFront(c, k + 1);
      FoldStep(c, k);
    }
  }

  // A state of at most five symbols is below 25 bits.
  lemma {:induction false} FoldSmall(c: seq<Five>)
    requires |c| <= 5
    ensures Polymod(0, c) < if |c| == 0 then 1 else if |c| == 1 then 0x20 else if |c| == 2 then 0x400
                            else if |c| == 3 then 0x8000 else if |c| == 4 then 0x100000 else 0x2000000
  {
    hide Shift, Xor, Symbol;
    if c != [] {
      var n := |c| - 1;
      FoldSmall(c[..n]);
      Appended(0, c, n);
      var x := Polymod(0, c[..n]);
      BitsSymbol(c[n]);
      AppendSmall(x, Symbol(c[n]), n);
    }
  }

  lemma Appended(s: Checksum, c: seq<Five>, n: nat)
    requires n == |c| - 1
    ensures Polymod(s, c) == Xor(Shift(Polymod(s, c[..n])), Symbol(c[n]))
  {
    hide Shift, Xor, Symbol;
    assert c == c[..n] + [c[n]];
    PolymodJoins(s, c[..n], [c[n]]);
    assert [c[n]][1..] == [];
  }

  lemma AppendSmall(x: Checksum, v: Checksum, n: nat)
    requires n < 5 && v < 32
    requires x < if n == 0 then 1 else if n == 1 then 0x20 else if n == 2 then 0x400 else if n == 3 then 0x8000
                 else 0x100000
    ensures Xor(Shift(x), v) < if n == 0 then 0x20 else if n == 1 then 0x400 else if n == 2 then 0x8000
                               else if n == 3 then 0x100000 else 0x2000000
  {
    ShiftSmall(x);
    hide Shift;
  }

  lemma FoldStep(c: seq<Five>, k: nat)
    requires |c| == 6 && k < 6
    ensures Down5(Polymod(0, c[..k + 1])) == Polymod(0, c[..k]) && FromBits(Last5(Polymod(0, c[..k + 1]))) == c[k]
  {
    hide Shift, Xor, Symbol, Down5, Last5, Up5, FromBits, Polymod;
    var x := Polymod(0, c[..k]);
    FoldSmall(c[..k]);
    Below25(x, k);
    Appended(0, c[..k + 1], k);
    assert c[..k + 1][..k] == c[..k];
    BitsSymbol(c[k]);
    ShiftUp(x);
    JoinLow(x, Symbol(c[k]));
  }

  lemma Below25(x: Checksum, k: nat)
    requires k <= 5
    requires x < if k == 0 then 1 else if k == 1 then 0x20 else if k == 2 then 0x400 else if k == 3 then 0x8000
                 else if k == 4 then 0x100000 else 0x2000000
    ensures x < 0x2000000
  {
  }

  lemma PartOfFold(c: seq<Five>, i: nat)
    requires |c| == 6 && i < 6
    ensures Part(Contribution(c), i) == c[i]
  {
    hide Shift, Xor, Symbol, Down5, Last5, Up5, FromBits, Front, Polymod;
    FoldFront(c, i + 1);
    FoldStep(c, i);
  }

  // --- creating and verifying ---

  datatype Encoding = BECH32 | BECH32M

  function Const(spec: Encoding): Checksum { if spec.BECH32? then 1 else BECH32M_CONST }

  function HrpExpand(hrp: Bytes): seq<Five> {
    seq(|hrp|, i requires 0 <= i < |hrp| => hrp[i] / 32) + [0] + seq(|hrp|, i requires 0 <= i < |hrp| => hrp[i] % 32)
  }

  function CreateChecksum(hrp: Bytes, data: seq<Five>, spec: Encoding): (c: seq<Five>)
    ensures |c| == 6
  {
    Parts(Xor(Polymod(1, HrpExpand(hrp) + data + Zeros5(6)), Const(spec)))
  }

  function VerifyChecksum(hrp: Bytes, data: seq<Five>): Option<Encoding> {
    var chk := Polymod(1, HrpExpand(hrp) + data);
    if chk == 1 then Some(BECH32) else if chk == BECH32M_CONST then Some(BECH32M) else None
  }

  lemma VerifyMeans(hrp: Bytes, data: seq<Five>, spec: Encoding)
    ensures VerifyChecksum(hrp, data) == Some(spec) <==> Polymod(1, HrpExpand(hrp) + data) == Const(spec)
  {
    hide Polymod, HrpExpand;
    assert (1 as Checksum) != BECH32M_CONST;
  }

  /** Six symbols verify exactly when they are the checksum created for the encoding. */
  lemma ChecksumExactly(hrp: Bytes, data: seq<Five>, c: seq<Five>, spec: Encoding)
    requires |c| == 6
    ensures VerifyChecksum(hrp, data + c) == Some(spec) <==> c == CreateChecksum(hrp, data, spec)
  {
    hide Polymod, HrpExpand, Xor, VerifyChecksum, Const, Contribution, Parts;
    var values := HrpExpand(hrp) + data;
    assert HrpExpand(hrp) + (data + c) == values + c;
    var pm := Polymod(1, values + Zeros5(6));
    VerifyMeans(hrp, data + c, spec);
    Checksummed(values, c);
    var k := Contribution(c);
    ContributionTells(c);
    PartsContribute(Xor(pm, Const(spec)));
    XorSolves(pm, k, Const(spec));
  }

  lemma XorSolves(a: Checksum, b: Checksum, c: Checksum)
    ensures Xor(a, b) == c <==> b == Xor(a, c)
  {
    hide Xor;
    XorCancels(b, a);
    XorCancels(c, a);
    XorCommutes(a, b);
    XorCommutes(a, c);
  }

  /** bech32_create_checksum */
  method CreateChecksumSymbols(hrp: Bytes, data: seq<Five>, spec: Encoding) returns (c: seq<Five>)
    ensures c == CreateChecksum(hrp, data, spec)
  {
    hide Polymod, HrpExpand, FromBits;
    var values := HrpExpand(hrp) + data;
    var pm := PolymodLoop(values + Zeros5(6));
    var polymod := Xor(pm, Const(spec));
    Fronts(polymod);
    c := [FromBits((polymod >> 25) & 31), FromBits((polymod >> 20) & 31), FromBits((polymod >> 15) & 31),
          FromBits((polymod >> 10) & 31), FromBits((polymod >> 5) & 31), FromBits(polymod & 31)];
    hide Front, Xor;
  }

  // --- one wrong symbol ---

  function Selected(b0: bool, b1: bool, b2: bool, b3: bool, b4: bool): Checksum {
    Xor(Xor(Xor(Xor(Xor(0, if b0 then G0 else 0), if b1 then G1 else 0), if b2 then G2 else 0), if b3 then G3 else 0),
        if b4 then G4 else 0)
  }

  lemma Independent(b0: bool, b1: bool, b2: bool, b3: bool, b4: bool)
    ensures Selected(b0, b1, b2, b3, b4) & 31 == 0 ==> !b0 && !b1 && !b2 && !b3 && !b4
  {
  }

  lemma TermsSelected(top: Checksum)
    ensures Terms(top, 5) == Selected(Odd(Right(top, 0)), Odd(Right(top, 1)), Odd(Right(top, 2)), Odd(Right(top, 3)),
                                      Odd(Right(top, 4)))
  {
    hide Odd, Right, Xor;
    FiveTerms(top);
    hide Terms;
  }

  lemma FiveTerms(top: Checksum)
    ensures Terms(top, 5) ==
            Xor(Xor(Xor(Xor(Xor(0, Term(Right(top, 0), G0)), Term(Right(top, 1), G1)), Term(Right(top, 2), G2)),
                    Term(Right(top, 3), G3)), Term(Right(top, 4), G4))
  {
    hide Term, Right, Xor;
    assert Terms(top, 0) == 0;
    assert Terms(top, 1) == Xor(Terms(top, 0), Term(Right(top, 0), G0));
    assert Terms(top, 2) == Xor(Terms(top, 1), Term(Right(top, 1), G1));
    assert Terms(top, 3) == Xor(Terms(top, 2), Term(Right(top, 2), G2));
    assert Terms(top, 4) == Xor(Terms(top, 3), Term(Right(top, 3), G3));
    assert Terms(top, 5) == Xor(Terms(top, 4), Term(Right(top, 4), G4));
  }

  lemma LowEmpty(a: Checksum, t: Checksum)
    requires Xor(Low(a), t) == 0
    ensures t & 31 == 0
  {
  }

  lemma AllEven(top: Checksum)
    requires top < 32 && !Odd(Right(top, 0)) && !Odd(Right(top, 1)) && !Odd(Right(top, 2)) && !Odd(Right(top, 3))
             && !Odd(Right(top, 4))
    ensures top == 0
  {
    assert top >> 0 == top;
  }

  lemma NothingLeft(a: Checksum)
    requires Right(a, 25) == 0 && Low(a) == 0
    ensures a == 0
  {
  }

  /** Shifting is injective: only zero is shifted to zero. */
  lemma ShiftInjective(a: Checksum)
    requires Shift(a) == 0
    ensures a == 0
  {
    hide Xor, Low, Right, Odd, Terms, Selected;
    var top := Right(a, 25);
    TopSmall(a);
    LowEmpty(a, Terms(top, 5));
    TermsSelected(top);
    Independent(Odd(Right(top, 0)), Odd(Right(top, 1)), Odd(Right(top, 2)), Odd(Right(top, 3)), Odd(Right(top, 4)));
    AllEven(top);
    NoTerms(5);
    XorZero(Low(a));
    NothingLeft(a);
  }

  lemma TopSmall(a: Checksum)
    ensures Right(a, 25) < 32
  {
  }

  lemma {:induction false} ZerosKeep(e: Checksum, n: nat)
    requires Polymod(e, Zeros5(n)) == 0
    ensures e == 0
    decreases n
  {
    if n > 0 {
      hide Shift, Xor, Symbol;
      SymbolZero();
      XorZero(Shift(e));
      assert Zeros5(n)[1..] == Zeros5(n - 1);
      ZerosKeep(Shift(e), n - 1);
      ShiftInjective(e);
    }
  }

  // --- no mix-up of the two encodings ---

  function Bit(r: Checksum, bit: Checksum, g: Checksum): Checksum { if r & bit != 0 then g else 0 }

  const B0: Checksum := 0x228bf1a8
  const B1: Checksum := 0x1703c750
  const B2: Checksum := 0x2c972fa9
  const B3: Checksum := 0xb2e5a72
  const B4: Checksum := 0x14d895ed

  // The state before a zero symbol was shifted in.
  function Unshift(r: Checksum): Checksum {
    (r >> 5) ^ Bit(r, 1, B0) ^ Bit(r, 2, B1) ^ Bit(r, 4, B2) ^ Bit(r, 8, B3) ^ Bit(r, 16, B4)
  }

  // What the last five bits tell of it.
  function Carried(c: Checksum): Checksum {
    Bit(c, 1, B0) ^ Bit(c, 2, B1) ^ Bit(c, 4, B2) ^ Bit(c, 8, B3) ^ Bit(c, 16, B4)
  }

  lemma UnshiftParts(r: Checksum)
    ensures Unshift(r) == Xor(Down5(r), Carried(Last5(r)))
  {
    assert Last5(r) & 1 == r & 1 && Last5(r) & 2 == r & 2 && Last5(r) & 4 == r & 4;
    assert Last5(r) & 8 == r & 8 && Last5(r) & 16 == r & 16;
  }

  lemma Unshifted(s: Checksum)
    ensures Unshift(Shift(s)) == s
  {
    hide Xor, Low, Right, Odd, Terms, Selected, Unshift, Tops;
    var top := Right(s, 25);
    var b0, b1, b2, b3, b4 := Odd(Right(top, 0)), Odd(Right(top, 1)), Odd(Right(top, 2)), Odd(Right(top, 3)),
      Odd(Right(top, 4));
    TermsSelected(top);
    UnshiftAdds(s, Selected(b0, b1, b2, b3, b4));
    UnshiftSelected(b0, b1, b2, b3, b4);
    TopsOf(s);
  }

  // The five highest bits.
  function Tops(b0: bool, b1: bool, b2: bool, b3: bool, b4: bool): Checksum {
    (if b0 then 0x2000000 else 0) | (if b1 then 0x4000000 else 0) | (if b2 then 0x8000000 else 0)
    | (if b3 then 0x10000000 else 0) | (if b4 then 0x20000000 else 0)
  }

  lemma UnshiftAdds(s: Checksum, t: Checksum)
    ensures Unshift(Xor(Low(s), t)) == Xor(s & 0x1ffffff, Unshift(t))
  {
    hide Xor, Low, Down5, Last5, Carried, Unshift;
    UnshiftParts(t);
    UnshiftParts(Xor(Low(s), t));
    LastOnly(s, t);
    LowMoves(s, t);
    XorAssociates(s & 0x1ffffff, Down5(t), Carried(Last5(t)));
  }

  lemma LastOnly(s: Checksum, t: Checksum)
    ensures Last5(Xor(Low(s), t)) == Last5(t)
  {
  }

  lemma LowMoves(s: Checksum, t: Checksum)
    ensures Down5(Xor(Low(s), t)) == Xor(s & 0x1ffffff, Down5(t))
  {
    hide Xor, Low, Down5;
    DownLinear(Low(s), t);
    DownLow(s);
  }

  lemma DownLinear(a: Checksum, b: Checksum)
    ensures Down5(Xor(a, b)) == Xor(Down5(a), Down5(b))
  {
  }

  lemma DownLow(s: Checksum)
    ensures Down5(Low(s)) == s & 0x1ffffff
  {
  }

  lemma UnshiftSelected(b0: bool, b1: bool, b2: bool, b3: bool, b4: bool)
    ensures Unshift(Selected(b0, b1, b2, b3, b4)) == Tops(b0, b1, b2, b3, b4)
  {
  }

  lemma TopsOf(s: Checksum)
    ensures var top := Right(s, 25);
            Xor(s & 0x1ffffff, Tops(Odd(Right(top, 0)), Odd(Right(top, 1)), Odd(Right(top, 2)), Odd(Right(top, 3)),
                                    Odd(Right(top, 4))))
            == s
  {
    hide Xor, Right, Odd, Tops;
    TopSmall(s);
    TopBits(Right(s, 25));
    TopsUp(Right(s, 25));
    JoinTop(s);
  }

  function Up25(x: Checksum): Checksum { x << 25 }

  lemma TopBits(top: Checksum)
    requires top < 32
    ensures (Odd(Right(top, 0)) <==> top & 1 != 0) && (Odd(Right(top, 1)) <==> top & 2 != 0)
            && (Odd(Right(top, 2)) <==> top & 4 != 0)
    ensures (Odd(Right(top, 3)) <==> top & 8 != 0) && (Odd(Right(top, 4)) <==> top & 16 != 0)
  {
  }

  lemma TopsUp(top: Checksum)
    requires top < 32
    ensures Tops(top & 1 != 0, top & 2 != 0, top & 4 != 0, top & 8 != 0, top & 16 != 0) == Up25(top)
  {
  }

  lemma JoinTop(s: Checksum)
    ensures Xor(s & 0x1ffffff, Up25(Right(s, 25))) == s
  {
    BothParts(s);
    assert Right(s, 25) == s >> 25;
    hide Right;
  }

  lemma BothParts(s: Checksum)
    ensures (s & 0x1ffffff) ^ ((s >> 25) << 25) == s
  {
  }

  // Going back n steps, the states have more than one symbol, and end where it is said.
  predicate Stays(r: Checksum, n: nat, end: Checksum)
    decreases n
  {
    r >= 32 && if n == 0 then r == end else Stays(Unshift(r), n - 1, end)
  }

  lemma {:induction false} StaysOn(r: Checksum, n: nat, mid: Checksum, k: nat, end: Checksum)
    requires Stays(r, n, mid) && Stays(mid, k, end)
    ensures Stays(r, n + k, end)
    decreases n
  {
    if n > 0 { StaysOn(Unshift(r), n - 1, mid, k, end); }
  }

  // The states that lead to the difference of the two constants.
  lemma FarApart()
    ensures Stays(0x2bc830a2, 88, 0x3a86b5a3)
  {
    hide Stays;
    Apart0();
    Apart8();
    Apart16();
    Apart24();
    Apart32();
    Apart40();
    Apart48();
    Apart56();
    Apart64();
    Apart72();
    Apart80();
    StaysOn(0x2bc830a2, 8, 0x32464667, 8, 0x117b6dc3);
    StaysOn(0x2bc830a2, 16, 0x117b6dc3, 8, 0x19840351);
    StaysOn(0x2bc830a2, 24, 0x19840351, 8, 0x2f5ab22d);
    StaysOn(0x2bc830a2, 32, 0x2f5ab22d, 8, 0x2e97cab8);
    StaysOn(0x2bc830a2, 40, 0x2e97cab8, 8, 0x2e7ca086);
    StaysOn(0x2bc830a2, 48, 0x2e7ca086, 8, 0x1b2d5009);
    StaysOn(0x2bc830a2, 56, 0x1b2d5009, 8, 0x39f56e1a);
    StaysOn(0x2bc830a2, 64, 0x39f56e1a, 8, 0x27b4e54e);
    StaysOn(0x2bc830a2, 72, 0x27b4e54e, 8, 0x3ef07c66);
    StaysOn(0x2bc830a2, 80, 0x3ef07c66, 8, 0x3a86b5a3);
  }

  lemma Apart0()
    ensures Stays(0x2bc830a2, 8, 0x32464667)
  {
  }

  lemma Apart8()
    ensures Stays(0x32464667, 8, 0x117b6dc3)
  {
  }

  lemma Apart16()
    ensures Stays(0x117b6dc3, 8, 0x19840351)
  {
  }

  lemma Apart24()
    ensures Stays(0x19840351, 8, 0x2f5ab22d)
  {
  }

  lemma Apart32()
    ensures Stays(0x2f5ab22d, 8, 0x2e97cab8)
  {
  }

  lemma Apart40()
    ensures Stays(0x2e97cab8, 8, 0x2e7ca086)
  {
  }

  lemma Apart48()
    ensures Stays(0x2e7ca086, 8, 0x1b2d5009)
  {
  }

  lemma Apart56()
    ensures Stays(0x1b2d5009, 8, 0x39f56e1a)
  {
  }

  lemma Apart64()
    ensures Stays(0x39f56e1a, 8, 0x27b4e54e)
  {
  }

  lemma Apart72()
    ensures Stays(0x27b4e54e, 8, 0x3ef07c66)
  {
  }

  lemma Apart80()
    ensures Stays(0x3ef07c66, 8, 0x3a86b5a3)
  {
  }

  // No difference of a symbol becomes it.
  lemma {:induction false} NotReached(e: Checksum, n: nat, r: Checksum, k: nat, end: Checksum)
    requires e < 32 && n <= k && Stays(r, k, end)
    ensures Polymod(e, Zeros5(n)) != r
    decreases n
  {
    hide Polymod, Unshift;
    if Polymod(e, Zeros5(n)) == r {
      if n == 0 {
        NoZeros(e);
        assert false;
      } else {
        LastZero(e, n);
        Unshifted(Polymod(e, Zeros5(n - 1)));
        NotReached(e, n - 1, Unshift(r), k - 1, end);
      }
    }
  }

  lemma NoZeros(e: Checksum)
    ensures Polymod(e, Zeros5(0)) == e
  {
  }

  lemma LastZero(e: Checksum, n: nat)
    requires n > 0
    ensures Polymod(e, Zeros5(n)) == Shift(Polymod(e, Zeros5(n - 1)))
  {
    hide Shift, Xor, Symbol;
    var s := Polymod(e, Zeros5(n - 1));
    assert Zeros5(n) == Zeros5(n - 1) + [0];
    PolymodJoins(e, Zeros5(n - 1), [0]);
    SymbolZero();
    XorZero(Shift(s));
    assert Polymod(s, [0]) == Polymod(Xor(Shift(s), Symbol(0)), [0][1..]);
  }

  /** One wrong symbol never goes unnoticed: a string that verifies does not, with one symbol replaced by
      another, verify for the same encoding, nor for the other one within the 90 characters of a string. */
  lemma SingleErrorDetected(hrp: Bytes, a: seq<Five>, x: Five, y: Five, b: seq<Five>, spec: Encoding)
    requires x != y && VerifyChecksum(hrp, a + [x] + b) == Some(spec)
    ensures VerifyChecksum(hrp, a + [y] + b) != Some(spec)
    ensures |b| <= 88 ==> VerifyChecksum(hrp, a + [y] + b) == None
  {
    hide Polymod, HrpExpand, Xor, VerifyChecksum, Const, Symbol, Shift, Stays;
    var front := HrpExpand(hrp) + a;
    assert HrpExpand(hrp) + (a + [x] + b) == front + ([x] + b) && HrpExpand(hrp) + (a + [y] + b) == front + ([y] + b);
    var s := Polymod(1, front);
    PolymodJoins(1, front, [x] + b);
    PolymodJoins(1, front, [y] + b);
    VerifyMeans(hrp, a + [x] + b, spec);
    SymbolsDiffer(s, x, y, b);
    forall other: Encoding | VerifyChecksum(hrp, a + [y] + b) == Some(other)
      ensures other != spec && |b| > 88
    {
      VerifyMeans(hrp, a + [y] + b, other);
      if other != spec && |b| <= 88 {
        ConstsDiffer(spec, other);
        FarApart();
        SymbolsClose(x, y);
        NotReached(Xor(Symbol(x), Symbol(y)), |b|, 0x2bc830a2, 88, 0x3a86b5a3);
        assert false;
      }
    }
  }

  lemma ConstsDiffer(a: Encoding, b: Encoding)
    requires a != b
    ensures Xor(Const(a), Const(b)) == 0x2bc830a2
  {
  }

  lemma SymbolsClose(x: Five, y: Five)
    ensures Xor(Symbol(x), Symbol(y)) < 32
  {
    hide Symbol;
    BitsSymbol(x);
    BitsSymbol(y);
  }

  // Two strings with different symbols in one place differ in their sums as the symbols do, shifted on.
  lemma SymbolsDiffer(s: Checksum, x: Five, y: Five, b: seq<Five>)
    ensures Polymod(Xor(Symbol(x), Symbol(y)), Zeros5(|b|)) == Xor(Polymod(s, [x] + b), Polymod(s, [y] + b))
    ensures x != y ==> Polymod(s, [x] + b) != Polymod(s, [y] + b)
  {
    assert ([x] + b)[1..] == b && ([y] + b)[1..] == b;
    var u, v := Xor(Shift(s), Symbol(x)), Xor(Shift(s), Symbol(y));
    assert Polymod(s, [x] + b) == Polymod(u, b) && Polymod(s, [y] + b) == Polymod(v, b);
    hide Polymod, Xor, Symbol, Shift, FromBits;
    var e := Xor(Symbol(x), Symbol(y));
    SumOfBoth(Shift(s), Symbol(x), Symbol(y));
    PolymodSplits(e, v, b);
    XorCancels(Polymod(e, Zeros5(|b|)), Polymod(v, b));
    if Polymod(u, b) == Polymod(v, b) {
      XorZero(Polymod(v, b));
      ZerosKeep(e, |b|);
      XorCancels(Symbol(x), Symbol(y));
      BitsSymbol(x);
      BitsSymbol(y);
    }
  }

  lemma SumOfBoth(s: Checksum, x: Checksum, y: Checksum)
    ensures Xor(Xor(x, y), Xor(s, y)) == Xor(s, x)
  {
    hide Xor;
    XorCommutes(s, y);
    XorAssociates(Xor(x, y), y, s);
    XorCancels(x, y);
    XorCommutes(x, s);
  }

  // --- characters ---

  // CHARSET[v], and CHARSET.find.
  function CharOf(v: Five): byte {
    match v
    case 0 => 113
    case 1 => 112
    case 2 => 122
    case 3 => 114
    case 4 => 121
    case 5 => 57
    case 6 => 120
    case 7 => 56
    case 8 => 103
    case 9 => 102
    case 10 => 50
    case 11 => 116
    case 12 => 118
    case 13 => 100
    case 14 => 119
    case 15 => 48
    case 16 => 115
    case 17 => 51
    case 18 => 106
    case 19 => 110
    case 20 => 53
    case 21 => 52
    case 22 => 107
    case 23 => 104
    case 24 => 99
    case 25 => 101
    case 26 => 54
    case 27 => 109
    case 28 => 117
    case 29 => 97
    case 30 => 55
    case _ => 108
  }

  function Find(c: byte): (v: Option<Five>)
    ensures v.Some? ==> CharOf(v.value) == c
  {
    match c
    case 113 => Some(0)
    case 112 => Some(1)
    case 122 => Some(2)
    case 114 => Some(3)
    case 121 => Some(4)
    case 57 => Some(5)
    case 120 => Some(6)
    case 56 => Some(7)
    case 103 => Some(8)
    case 102 => Some(9)
    case 50 => Some(10)
    case 116 => Some(11)
    case 118 => Some(12)
    case 100 => Some(13)
    case 119 => Some(14)
    case 48 => Some(15)
    case 115 => Some(16)
    case 51 => Some(17)
    case 106 => Some(18)
    case 110 => Some(19)
    case 53 => Some(20)
    case 52 => Some(21)
    case 107 => Some(22)
    case 104 => Some(23)
    case 99 => Some(24)
    case 101 => Some(25)
    case 54 => Some(26)
    case 109 => Some(27)
    case 117 => Some(28)
    case 97 => Some(29)
    case 55 => Some(30)
    case 108 => Some(31)
    case _ => None
  }

  lemma FindsChar(v: Five)
    ensures Find(CharOf(v)) == Some(v)
  {
  }
}
