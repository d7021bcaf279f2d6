/** The messages carried by the commands, and the client code that builds them
    (src/set_partner_key.c, src/process_transaction.c, src/check_tx_signature.c,
    src/parse_check_address_message.c, src/parse_coin_config.c). */
module Messages {
  import opened Common
  import opened Commands
  import opened Buf
  import Der

  datatype Curve = Secp256k1 | Secp256r1

  // --- partner credentials ---

  datatype Partner = Partner(name: Bytes, curve: Curve, key: Bytes)

  // The curve is fixed by a legacy flow and named by a byte in the others.
  function PartnerCurve(sub: Sub, s: Bytes): Option<(Curve, Bytes)> {
    if sub.Swap? then Some((Secp256k1, s))
    else if sub.Sell? || sub.Fund? then Some((Secp256r1, s))
    else if s == [] then None
    else if s[0] == 0 then Some((Secp256k1, s[1..]))
    else if s[0] == 1 then Some((Secp256r1, s[1..]))
    else None
  }

  function ParsePartner(sub: Sub, data: Bytes): Option<Partner> {
    match Sized(1, data)
    case None => None
    case Some((name, rest)) =>
      if |name| < 3 || |name| > 15 then None
      else match PartnerCurve(sub, rest)
           case None => None
           case Some((curve, key)) => if |key| != 65 then None else Some(Partner(name, curve, key))
  }

  method ParseSetPartnerKeyCommand(sub: Sub, data: Bytes) returns (ok: bool, partner: Partner)
    ensures ok <==> ParsePartner(sub, data).Some?
    ensures ok ==> partner == ParsePartner(sub, data).value
  {
    hide Sized;
    partner := Partner([], Secp256k1, []);
    var offset := 0;
    assert From(data, 0) == data;
    var name;
    ok, name, offset := ParseToSizedBuffer(data, 1, offset);
    if !ok || |name| < 3 || |name| > 15 {
      return false, partner;
    }
    var curve;
    if sub.Swap? {
      curve := Secp256k1;
    } else if sub.Sell? || sub.Fund? {
      curve := Secp256r1;
    } else {
      var curveId;
      ok, curveId, offset := PopUint8FromBuffer(data, offset);
      if !ok {
        return false, partner;
      }
      if curveId == 0 {
        curve := Secp256k1;
      } else if curveId == 1 {
        curve := Secp256r1;
      } else {
        return false, partner;
      }
    }
    if offset + 65 != |data| {
      return false, partner;
    }
    return true, Partner(name, curve, data[offset..]);
  }

  // SigningAuthority.credentials and credentials_ng.
  function Credentials(sub: Sub, p: Partner): Bytes
    requires |p.name| < 0x100
  {
    Prefixed(1, p.name) + ((if sub.IsNg() then [if p.curve.Secp256k1? then 0 else 1] else []) + p.key)
  }

  /** The parser accepts exactly the credentials of a legal partner. */
  lemma PartnerExactly(sub: Sub, data: Bytes, p: Partner)
    ensures ParsePartner(sub, data) == Some(p) <==>
            && 3 <= |p.name| <= 15 && |p.key| == 65
            && (sub.Swap? ==> p.curve.Secp256k1?) && (sub.Sell? || sub.Fund? ==> p.curve.Secp256r1?)
            && data == Credentials(sub, p)
  {
    hide Sized, Prefixed;
    if ParsePartner(sub, data) == Some(p) {
      SizedIsPrefixed(1, data);
      var rest := Sized(1, data).value.1;
      assert rest == (if sub.IsNg() then [rest[0]] else []) + p.key;
    }
    if |p.name| <= 15 {
      var tail := (if sub.IsNg() then [if p.curve.Secp256k1? then 0 else 1] else []) + p.key;
      SizedInvertsPrefixed(1, p.name, tail);
      assert p.key == if sub.IsNg() then tail[1..] else tail;
    }
  }

  // --- transaction proposal ---

  datatype Proposal = Proposal(payload: Bytes, fees: Bytes, base64: bool)

  function LengthSize(sub: Sub): nat { if sub.IsNg() then 2 else 1 }

  function Encoding(sub: Sub, s: Bytes): Option<(bool, Bytes)> {
    if sub.Swap? then Some((false, s))
    else if sub.Sell? || sub.Fund? then Some((true, s))
    else if s == [] || s[0] > 1 then None
    else Some((s[0] == 1, s[1..]))
  }

  function ParseTransaction(sub: Sub, data: Bytes): Option<Proposal> {
    match Encoding(sub, data)
    case None => None
    case Some((base64, s)) => ParseProposal(LengthSize(sub), base64, s)
  }

  function ParseProposal(n: nat, base64: bool, s: Bytes): Option<Proposal> {
    match Sized(n, s)
    case None => None
    case Some((payload, rest)) =>
      match Sized(1, rest)
      case None => None
      case Some((fees, end)) => if end != [] || |fees| > 16 then None else Some(Proposal(payload, fees, base64))
  }

  method ParseTransactionCommand(data: Bytes, sub: Sub) returns (ok: bool, payload: Bytes, fees: Bytes, base64: bool)
    ensures ok <==> ParseTransaction(sub, data).Some?
    ensures ok ==> Proposal(payload, fees, base64) == ParseTransaction(sub, data).value
  {
    hide Sized;
    payload, fees, base64 := [], [], false;
    var lengthSize := 2;
    if sub.Swap? || sub.Sell? || sub.Fund? {
      lengthSize := 1;
    }
    var offset := 0;
    assert From(data, 0) == data;
    if sub.Sell? || sub.Fund? {
      base64 := true;
    } else if !sub.Swap? {
      var selector;
      ok, selector, offset := PopUint8FromBuffer(data, offset);
      if !ok || (selector != 0 && selector != 1) {
        return false, [], [], base64;
      }
      base64 := selector == 1;
    }
    ok, payload, offset := ParseToSizedBuffer(data, lengthSize, offset);
    if !ok {
      return false, [], [], base64;
    }
    ok, fees, offset := ParseToSizedBuffer(data, 1, offset);
    if !ok || offset != |data| || |fees| > 16 {
      return false, payload, fees, base64;
    }
  }

  // int_to_minimally_sized_bytes
  function MinimalBytes(n: nat): Bytes { if n < 256 then [n] else MinimalBytes(n / 256) + [n % 256] }

  lemma {:induction false} MinimalBytesOf(n: nat, k: nat)
    requires k > 0
    ensures BigEndian(MinimalBytes(n)) == n && |MinimalBytes(n)| >= 1
    ensures |MinimalBytes(n)| <= k <==> n < Pow(256, k)
  {
    var b := MinimalBytes(n);
    assert Pow(256, k) == 256 * Pow(256, k - 1);
    PowPositive(256, k - 1);
    if n < 256 {
      assert b[..0] == [];
    } else {
      assert b[..|b| - 1] == MinimalBytes(n / 256);
      if k == 1 {
        MinimalBytesOf(n / 256, 1);
        assert Pow(256, 0) == 1;
      } else {
        MinimalBytesOf(n / 256, k - 1);
      }
    }
  }

  // craft_transaction on a payload of the given encoding; None where it raises.
  function CraftTransaction(sub: Sub, tx: Bytes, fees: nat, base64: bool): Option<Bytes> {
    var f := MinimalBytes(fees);
    if |tx| >= (if sub.IsNg() then 0x10000 else 0x100) || |f| >= 0x100 then None
    else Some((if sub.IsNg() then [if base64 then 1 else 0] else []) + (Prefixed(LengthSize(sub), tx) + Prefixed(1, f)))
  }

  /** What the client crafts is accepted exactly when the fees need at most 16 bytes, with the payload
      and the fees it was given. */
  lemma CraftedTransactionParses(sub: Sub, tx: Bytes, fees: nat, base64: bool)
    requires CraftTransaction(sub, tx, fees, base64).Some?
    requires sub.IsNg() || base64 == !sub.Swap?
    ensures var p := ParseTransaction(sub, CraftTransaction(sub, tx, fees, base64).value);
            && (p.Some? <==> fees < Pow(256, 16))
            && (p.Some? ==> p.value == Proposal(tx, MinimalBytes(fees), base64) && BigEndian(p.value.fees) == fees)
  {
    hide Sized, Prefixed, MinimalBytes, Pow;
    var f := MinimalBytes(fees);
    MinimalBytesOf(fees, 16);
    var s := Prefixed(LengthSize(sub), tx) + Prefixed(1, f);
    SizedInvertsPrefixed(LengthSize(sub), tx, Prefixed(1, f));
    SizedInvertsPrefixed(1, f, []);
    assert Prefixed(1, f) + [] == Prefixed(1, f);
    assert ParseProposal(LengthSize(sub), base64, s) == if |f| > 16 then None else Some(Proposal(tx, f, base64));
    assert !sub.IsNg() ==> [] + s == s;
  }

  /** The parser accepts exactly an encoding selector, where the flow has one, a payload and fees of at most 16
      bytes, both behind their lengths. */
  lemma ProposalExactly(sub: Sub, data: Bytes, q: Proposal)
    ensures ParseTransaction(sub, data) == Some(q) <==>
            && |q.payload| < (if sub.IsNg() then 0x10000 else 0x100) && |q.fees| <= 16
               && (sub.IsNg() || q.base64 == !sub.Swap?)
            && data == (if sub.IsNg() then [if q.base64 then 1 else 0, |q.payload| / 256, |q.payload| % 256]
                        else [|q.payload|])
                       + q.payload + [|q.fees|] + q.fees
  {
    hide Sized, Prefixed;
    if ParseTransaction(sub, data) == Some(q) {
      var s := Encoding(sub, data).value.1;
      SizedIsPrefixed(LengthSize(sub), s);
      var rest := Sized(LengthSize(sub), s).value.1;
      SizedIsPrefixed(1, rest);
      PrefixBytes(LengthSize(sub), q.payload);
      PrefixBytes(1, q.fees);
      assert s == Prefixed(LengthSize(sub), q.payload) + (Prefixed(1, q.fees) + []);
      assert sub.IsNg() ==> data == [data[0]] + s;
    }
    if |q.payload| < (if sub.IsNg() then 0x10000 else 0x100) && |q.fees| <= 16
      && (sub.IsNg() || q.base64 == !sub.Swap?) {
      BuiltParses(sub, q);
    }
  }

  lemma BuiltParses(sub: Sub, q: Proposal)
    requires |q.payload| < (if sub.IsNg() then 0x10000 else 0x100) && |q.fees| <= 16
             && (sub.IsNg() || q.base64 == !sub.Swap?)
    ensures ParseTransaction(sub, (if sub.IsNg() then [if q.base64 then 1 else 0, |q.payload| / 256, |q.payload| % 256]
                                   else [|q.payload|]) + q.payload + [|q.fees|] + q.fees) == Some(q)
  {
    hide Sized, Prefixed;
    var n, fees := LengthSize(sub), Prefixed(1, q.fees);
    var s := Prefixed(n, q.payload) + fees;
    PrefixBytes(n, q.payload);
    PrefixBytes(1, q.fees);
    SizedInvertsPrefixed(n, q.payload, fees);
    SizedInvertsPrefixed(1, q.fees, []);
    assert fees + [] == fees;
    var selector: Bytes := if sub.IsNg() then [if q.base64 then 1 else 0] else [];
    assert (selector + s)[|selector|..] == s;
    assert selector + s ==
           (if sub.IsNg() then [if q.base64 then 1 else 0, |q.payload| / 256, |q.payload| % 256] else [|q.payload|])
           + q.payload + [|q.fees|] + q.fees;
  }

  lemma PrefixBytes(n: nat, d: Bytes)
    requires (n == 1 && |d| < 0x100) || (n == 2 && |d| < 0x10000)
    ensures Prefixed(n, d) == (if n == 1 then [|d|] else [|d| / 256, |d| % 256]) + d
  {
  }

  // --- transaction signature ---

  // The prefix and format selectors: fixed in a legacy flow, two bytes in the others.
  function SignatureSelectors(sub: Sub, s: Bytes): Option<(bool, bool, Bytes)> {
    match sub
    case Swap => Some((false, false, s))
    case Fund => Some((true, false, s))
    case Sell => Some((true, true, s))
    case _ => if |s| < 2 || s[0] > 1 || s[1] > 1 then None else Some((s[0] == 1, s[1] == 1, s[2..]))
  }

  function SignatureAsDer(plain: bool, s: Bytes): Option<Bytes> {
    if plain then (if |s| != 64 then None else Der.Signature(s[..32], s[32..]))
    else if |s| < 67 || |s| > 73 || s[1] as int + 2 != |s| then None else Some(s)
  }

  // Whether the dot-prefixed digest is signed, and the DER signature.
  function ParseSignature(sub: Sub, data: Bytes): Option<(bool, Bytes)> {
    match SignatureSelectors(sub, data)
    case None => None
    case Some((dotted, plain, s)) =>
      match SignatureAsDer(plain, s) case None => None case Some(der) => Some((dotted, der))
  }

  method ReadSignatureSelectors(sub: Sub, data: Bytes) returns (ok: bool, dotted: bool, plain: bool, offset: nat)
    ensures ok <==> SignatureSelectors(sub, data).Some?
    ensures ok ==> offset <= |data| && (dotted, plain, data[offset..]) == SignatureSelectors(sub, data).value
  {
    ok, offset := true, 0;
    assert From(data, 0) == data;
    match sub
    case Swap => dotted, plain := false, false;
    case Fund => dotted, plain := true, false;
    case Sell => dotted, plain := true, true;
    case _ =>
      var first, second;
      dotted, plain := false, false;
      ok, first, offset := PopUint8FromBuffer(data, offset);
      if !ok || first > 1 {
        return false, false, false, offset;
      }
      ok, second, offset := PopUint8FromBuffer(data, offset);
      if !ok || second > 1 {
        return false, false, false, offset;
      }
      dotted, plain := first == 1, second == 1;
  }

  /** The signature to verify. Every error is INCORRECT_COMMAND_DATA: the branches that answer
      SIGN_VERIFICATION_FAIL for a failed re-encoding are never taken. */
  method ReadSignature(sub: Sub, data: Bytes) returns (status: nat, dotted: bool, signature: Bytes)
    ensures match ParseSignature(sub, data)
            case None => status == INCORRECT_COMMAND_DATA
            case Some(r) => status == 0 && r == (dotted, signature)
  {
    hide SignatureSelectors, Der.Signature, Der.Integer;
    signature := [];
    var ok, plain, offset;
    ok, dotted, plain, offset := ReadSignatureSelectors(sub, data);
    if !ok {
      return INCORRECT_COMMAND_DATA, dotted, [];
    }
    var remaining := data[offset..];
    if !plain {
      if |remaining| < 67 || |remaining| > 73 {
        return INCORRECT_COMMAND_DATA, dotted, [];
      }
      if remaining[1] as int + 2 != |remaining| {
        return INCORRECT_COMMAND_DATA, dotted, [];
      }
      return 0, dotted, remaining;
    }
    if |remaining| != 64 {
      return INCORRECT_COMMAND_DATA, dotted, [];
    }
    status, signature := EncodePlainSignature(remaining[..32], remaining[32..]);
  }

  method EncodePlainSignature(r: Bytes, s: Bytes) returns (status: nat, signature: Bytes)
    requires |r| == 32 && |s| == 32
    ensures status == 0 && Der.Signature(r, s) == Some(signature)
  {
    Der.CurveSizedSignature(r, s);
    hide Der.Signature, Der.Integer;
    var der := new byte[76];
    var rLen := Der.GetEncodedIntegerSize(r);
    var sLen := Der.GetEncodedIntegerSize(s);
    var size := rLen + sLen + 2;
    if size > der.Length {
      return SIGN_VERIFICATION_FAIL, [];
    }
    var n := Der.EncodeSigDer(der, size, r, s);
    if n == 0 {
      return SIGN_VERIFICATION_FAIL, [];
    }
    return 0, der[..size];
  }

  // --- address check ---

  datatype AddressCheck = AddressCheck(config: Bytes, der: Bytes, parameters: Bytes)

  function ParseAddressMessage(data: Bytes): Option<AddressCheck> {
    match Sized(1, data)
    case None => None
    case Some((config, r1)) =>
      if |config| < 1 then None
      else match Sized(1, From(r1, 1))
           case None => None
           case Some((body, r2)) =>
             if |body| + 2 < 67 || |body| + 2 > 73 then None
             else match Sized(1, r2)
                  case None => None
                  case Some((parameters, r3)) =>
                    if |parameters| < 1 || r3 != [] then None
                    else Some(AddressCheck(config, [r1[0], |body|] + body, parameters))
  }

  // The signature with its first byte and its length byte.
  method ParseDerSignature(input: Bytes, offset: nat) returns (ok: bool, der: Bytes, end: nat)
    requires offset <= |input|
    ensures match Sized(1, From(input[offset..], 1))
            case None => !ok
            case Some((body, rest)) =>
              (ok <==> |input| >= 3)
              && (ok ==> der == [input[offset], |body|] + body && From(input, end) == rest && end == |input| - |rest|)
  {
    if |input| < 3 {
      return false, [], offset;
    }
    var body;
    assert From(input, offset + 1) == From(input[offset..], 1);
    ok, body, end := ParseToSizedBuffer(input, 1, offset + 1);
    if !ok {
      return false, [], end;
    }
    SizedIsPrefixed(1, From(input, offset + 1));
    der := input[end - |body| - 2..end];
    assert input[offset + 1..] == [|body|] + body + From(input, end);
    assert der == [input[offset]] + input[offset + 1..end];
  }

  method ParseCheckAddressMessage(data: Bytes) returns (ok: bool, config: Bytes, der: Bytes, parameters: Bytes)
    ensures match ParseAddressMessage(data)
            case None => !ok
            case Some(m) => ok && m == AddressCheck(config, der, parameters)
  {
    hide Sized;
    config, der, parameters := [], [], [];
    var read := 0;
    assert From(data, 0) == data;
    ok, config, read := ParseToSizedBuffer(data, 1, read);
    if !ok || |config| < 1 {
      return false, [], [], [];
    }
    ghost var r1 := data[read..];
    assert From(data, read) == r1;
    ConfigFirst(data);
    ok, der, read := ParseDerSignature(data, read);
    if !ok || |der| < 67 || |der| > 73 {
      return false, [], [], [];
    }
    ok, parameters, read := ParseToSizedBuffer(data, 1, read);
    if !ok || |parameters| < 1 || |data| != read {
      return false, [], [], [];
    }
  }

  lemma ConfigFirst(data: Bytes)
    requires Sized(1, data).Some? && |Sized(1, data).value.0| >= 1
    ensures |data| >= 2 + |Sized(1, data).value.1|
    ensures Sized(1, From(Sized(1, data).value.1, 1)).Some? ==> |data| >= 3 && |Sized(1, data).value.1| >= 1
  {
    SizedIsPrefixed(1, data);
  }

  // CurrencyConfiguration.get_conf_for_ticker
  function SignedConfig(config: Bytes, der: Bytes, path: Bytes): Bytes
    requires |config| < 0x100 && |path| < 0x100
  {
    Prefixed(1, config) + (der + Prefixed(1, path))
  }

  /** The parser accepts exactly a signed configuration with its derivation path, where the signature
      states its own length; its first byte is not looked at. */
  lemma AddressMessageExactly(data: Bytes, m: AddressCheck)
    ensures ParseAddressMessage(data) == Some(m) <==>
            && 1 <= |m.config| < 0x100 && 1 <= |m.parameters| < 0x100
            && 67 <= |m.der| <= 73 && m.der[1] as int + 2 == |m.der|
            && data == SignedConfig(m.config, m.der, m.parameters)
  {
    hide Sized, Prefixed;
    if ParseAddressMessage(data) == Some(m) {
      SizedIsPrefixed(1, data);
      var r1 := Sized(1, data).value.1;
      SizedIsPrefixed(1, From(r1, 1));
      var (body, r2) := Sized(1, From(r1, 1)).value;
      SizedIsPrefixed(1, r2);
      ShortPrefix(body);
      assert r1 == [r1[0]] + From(r1, 1);
      assert r1 == m.der + r2;
      assert Prefixed(1, m.parameters) + [] == Prefixed(1, m.parameters);
    }
    if && 1 <= |m.config| < 0x100 && 1 <= |m.parameters| < 0x100
       && 67 <= |m.der| <= 73 && m.der[1] as int + 2 == |m.der| && data == SignedConfig(m.config, m.der, m.parameters) {
      SignedConfigParses(m.config, m.der, m.parameters);
    }
  }

  lemma ShortPrefix(d: Bytes)
    requires |d| < 0x100
    ensures Prefixed(1, d) == [|d|] + d
  {
  }

  lemma SignedConfigParses(config: Bytes, der: Bytes, path: Bytes)
    requires 1 <= |config| < 0x100 && 1 <= |path| < 0x100 && 67 <= |der| <= 73 && der[1] as int + 2 == |der|
    ensures ParseAddressMessage(SignedConfig(config, der, path)) == Some(AddressCheck(config, der, path))
  {
    hide Sized, Prefixed;
    var r2 := Prefixed(1, path);
    var r1 := der + r2;
    SizedInvertsPrefixed(1, config, r1);
    var body := der[2..];
    ShortPrefix(body);
    assert From(r1, 1) == Prefixed(1, body) + r2;
    SizedInvertsPrefixed(1, body, r2);
    SizedInvertsPrefixed(1, path, []);
    assert r2 + [] == r2;
    assert [r1[0], |body|] + body == der;
  }

  // --- coin configuration ---

  datatype Coin = Coin(ticker: Bytes, app: Bytes, config: Bytes)

  function Ascii(s: string): Bytes { seq(|s|, i requires 0 <= i < |s| => s[i] as int % 256) }

  // The application names the configuration authority gets wrong.
  function AliasedApp(name: Bytes): Bytes {
    if name == Ascii("Tezos") then Ascii("Tezos Wallet")
    else if name == Ascii("bsc") || name == Ascii("Bsc") then Ascii("Binance Smart Chain")
    else name
  }

  function ParseCoinConfig(s: Bytes): Option<Coin> {
    match Sized(1, s)
    case None => None
    case Some((ticker, r1)) =>
      if |ticker| < 1 || |ticker| > 9 then None
      else match Sized(1, r1)
           case None => None
           case Some((app, r2)) =>
             if |app| < 3 || |app| > 32 then None
             else match Sized(1, r2)
                  case None => None
                  case Some((config, r3)) =>
                    if |config| > 64 || r3 != [] then None else Some(Coin(ticker, AliasedApp(app), config))
  }

  method ParseCoinConfiguration(input: Bytes) returns (ok: bool, coin: Coin)
    ensures match ParseCoinConfig(input) case None => !ok case Some(c) => ok && coin == c
  {
    hide Sized;
    coin := Coin([], [], []);
    var read := 0;
    assert From(input, 0) == input;
    var ticker, app, config;
    ok, ticker, read := ParseToSizedBuffer(input, 1, read);
    if !ok || |ticker| < 1 || |ticker| > 9 {
      return false, coin;
    }
    ok, app, read := ParseToSizedBuffer(input, 1, read);
    if !ok || |app| < 3 || |app| > 32 {
      return false, coin;
    }
    ok, config, read := ParseToSizedBuffer(input, 1, read);
    if !ok || |config| > 64 || |input| != read {
      return false, coin;
    }
    hide Ascii;
    app := AliasAppName(app);
    coin := Coin(ticker, app, config);
  }

  const APP_ALIASES: seq<(string, string)> :=
    [("Tezos", "Tezos Wallet"), ("bsc", "Binance Smart Chain"), ("Bsc", "Binance Smart Chain")]

  // The first matching row of the table replaces the name.
  method AliasAppName(name: Bytes) returns (app: Bytes)
    ensures app == AliasedApp(name)
  {
    hide Ascii;
    app := name;
    for i := 0 to |APP_ALIASES|
      invariant app == name && forall j :: 0 <= j < i ==> name != Ascii(APP_ALIASES[j].0)
    {
      if app == Ascii(APP_ALIASES[i].0) {
        app := Ascii(APP_ALIASES[i].1);
        assert i > 0 ==> name != Ascii(APP_ALIASES[0].0);
        return;
      }
    }
    assert name != Ascii(APP_ALIASES[0].0) && name != Ascii(APP_ALIASES[1].0) && name != Ascii(APP_ALIASES[2].0);
  }

  // create_currency_config
  function CurrencyConfig(ticker: Bytes, app: Bytes, config: Bytes): Bytes
    requires |ticker| < 0x100 && |app| < 0x100 && |config| < 0x100
  {
    Prefixed(1, ticker) + (Prefixed(1, app) + Prefixed(1, config))
  }

  /** The parser accepts exactly the configurations built from a legal ticker, application name and
      sub-configuration. */
  lemma CoinConfigExactly(s: Bytes, c: Coin)
    ensures ParseCoinConfig(s) == Some(c) <==>
            exists app: Bytes :: 1 <= |c.ticker| <= 9 && 3 <= |app| <= 32 && |c.config| <= 64
                                 && c.app == AliasedApp(app) && s == CurrencyConfig(c.ticker, app, c.config)
  {
    hide Sized, Prefixed, AliasedApp;
    if ParseCoinConfig(s) == Some(c) {
      SizedIsPrefixed(1, s);
      var r1 := Sized(1, s).value.1;
      SizedIsPrefixed(1, r1);
      var (app, r2) := Sized(1, r1).value;
      SizedIsPrefixed(1, r2);
      assert Prefixed(1, c.config) + [] == Prefixed(1, c.config);
      assert c.app == AliasedApp(app) && s == CurrencyConfig(c.ticker, app, c.config);
    }
    forall app: Bytes | 1 <= |c.ticker| <= 9 && 3 <= |app| <= 32 && |c.config| <= 64
                        && c.app == AliasedApp(app) && s == CurrencyConfig(c.ticker, app, c.config)
      ensures ParseCoinConfig(s) == Some(c)
    {
      SizedInvertsPrefixed(1, c.ticker, Prefixed(1, app) + Prefixed(1, c.config));
      SizedInvertsPrefixed(1, app, Prefixed(1, c.config));
      SizedInvertsPrefixed(1, c.config, []);
      assert Prefixed(1, c.config) + [] == Prefixed(1, c.config);
    }
  }
}
