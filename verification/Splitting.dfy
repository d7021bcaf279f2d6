/** The client's splitting of a long command (client/src/ledger_app_clients/exchange/client.py), and how
    the device takes it. */
module Splitting {
  import opened Common
  import opened Commands
  import opened Flow
  import opened Apdu

  const MAX_CHUNK_SIZE: nat := 255
  const P2_EXTEND: nat := 0x10
  const P2_MORE: nat := 0x20

  // One APDU of a split command: chunk i of n.
  function SplitApdu(ins: Ins, rate: byte, sub: Sub, i: nat, n: nat, chunk: Bytes): Bytes
    requires i < n && |chunk| <= MAX_CHUNK_SIZE
  {
    var p2 := SubCode(sub) as int + (if i != n - 1 then P2_MORE else 0) + (if i != 0 then P2_EXTEND else 0);
    [0xE0, InsCode(ins), rate, p2, |chunk|] + chunk
  }

  function Cut(payload: Bytes): (r: seq<Bytes>)
    ensures forall i :: 0 <= i < |r| ==> 0 < |r[i]| <= MAX_CHUNK_SIZE
  {
    if payload == [] then []
    else if |payload| <= MAX_CHUNK_SIZE then [payload]
    else [payload[..255]] + Cut(payload[255..])
  }

  function SplitApdus(ins: Ins, rate: byte, sub: Sub, payload: Bytes): (r: seq<Bytes>)
    ensures |r| == |Cut(payload)|
  {
    var cut := Cut(payload);
    seq(|cut|, i requires 0 <= i < |cut| => SplitApdu(ins, rate, sub, i, |cut|, cut[i]))
  }

  // The APDUs sent are the first ones, up to the first that is answered with an error.
  predicate SentUntilError(all: seq<Bytes>, replies: seq<nat>, sent: seq<Bytes>)
    requires |replies| >= |all|
  {
    && sent <= all && (sent == all || (sent != [] && replies[|sent| - 1] != SUCCESS))
    && forall i :: 0 <= i < |sent| - 1 ==> replies[i] == SUCCESS
  }

  /** _exchange_split: the chunks are cut first, then sent one by one. The status words that come back
      are a parameter; the client raises at the first one that is not a success. */
  method ExchangeSplit(ins: Ins, rate: byte, sub: Sub, payload: Bytes, replies: seq<nat>) returns (sent: seq<Bytes>)
    requires |replies| >= |Cut(payload)|
    ensures SentUntilError(SplitApdus(ins, rate, sub, payload), replies, sent)
  {
    hide Cut, SplitApdu;
    var payloadSplit := CutPayload(payload);
    ghost var all := SplitApdus(ins, rate, sub, payload);
    sent := [];
    for i := 0 to |payloadSplit|
      invariant sent == all[..i] && forall j :: 0 <= j < i ==> replies[j] == SUCCESS
    {
      sent := sent + [SplitApdu(ins, rate, sub, i, |payloadSplit|, payloadSplit[i])];
      assert sent == all[..i + 1];
      if replies[i] != SUCCESS {
        return;
      }
    }
    assert all[..|all|] == all;
  }

  // The list of slices [payload[x:x + 255] for x in range(0, len(payload), 255)].
  method CutPayload(payload: Bytes) returns (cut: seq<Bytes>)
    ensures cut == Cut(payload)
  {
    hide Cut, Beyond;
    cut := [];
    var x := 0;
    WholeBeyond(payload);
    while x < |payload|
      invariant 0 <= x && cut + Cut(Beyond(payload, x)) == Cut(payload)
      decreases |payload| - x
    {
      var end := if x + MAX_CHUNK_SIZE < |payload| then x + MAX_CHUNK_SIZE else |payload|;
      var slice := payload[x..end];
      CutStep(payload, x, end);
      Regroup(cut, slice, Cut(Beyond(payload, x + MAX_CHUNK_SIZE)));
      cut := cut + [slice];
      x := x + MAX_CHUNK_SIZE;
    }
    NothingBeyond(payload, x);
    assert cut + [] == cut;
  }

  // What is left from an offset on.
  function Beyond(payload: Bytes, x: nat): Bytes { if x <= |payload| then payload[x..] else [] }

  lemma WholeBeyond(payload: Bytes)
    ensures Beyond(payload, 0) == payload && [] + Cut(payload) == Cut(payload)
  {
  }

  lemma NothingBeyond(payload: Bytes, x: nat)
    requires x >= |payload|
    ensures Cut(Beyond(payload, x)) == []
  {
  }

  lemma Regroup(a: seq<Bytes>, slice: Bytes, b: seq<Bytes>)
    ensures a + ([slice] + b) == (a + [slice]) + b
  {
  }

  lemma CutStep(payload: Bytes, x: nat, end: nat)
    requires x < |payload| && end == if x + MAX_CHUNK_SIZE < |payload| then x + MAX_CHUNK_SIZE else |payload|
    ensures Cut(Beyond(payload, x)) == [payload[x..end]] + Cut(Beyond(payload, x + MAX_CHUNK_SIZE))
  {
    var rest := payload[x..];
    if |rest| > 255 {
      assert rest[..255] == payload[x..end] && rest[255..] == payload[x + 255..];
    } else {
      assert payload[x..end] == rest;
      NothingBeyond(payload, x + MAX_CHUNK_SIZE);
    }
  }

  // --- the device's side ---

  // The device takes each APDU in turn, in PROVIDER_CHECKED of the flow; the receptions it makes.
  function Fed(rx: Rx, shared: Shared, sub: Sub, apdus: seq<Bytes>): (r: seq<Reception>)
    ensures |r| == |apdus|
    decreases |apdus|
  {
    if apdus == [] then []
    else
      var r := Accept(rx, shared, ProviderChecked, sub, apdus[0]);
      [r] + (match r
             case Rejected(_) => Fed(rx, shared, sub, apdus[1..])
             case More(rx', shared', _) => Fed(rx', shared', sub, apdus[1..])
             case Complete(rx', shared', _, _) => Fed(rx', shared', sub, apdus[1..]))
  }

  /** The header of a split APDU is read as it was meant. */
  lemma SplitHeader(rate: byte, sub: Sub, i: nat, n: nat, chunk: Bytes)
    requires rate <= 1 && sub.IsNg() && i < n && 0 < |chunk| <= MAX_CHUNK_SIZE
    ensures var apdu := SplitApdu(Process, rate, sub, i, n, chunk);
            && ReadHeader(apdu, ProviderChecked, sub) == GoodHeader(Header(Process, rate, sub, i == 0, i == n - 1))
            && apdu[5..] == chunk
  {
    var apdu := SplitApdu(Process, rate, sub, i, n, chunk);
    var code, extension := SubCode(sub) as int, (if i != n - 1 then 2 else 0) + (if i != 0 then 1 else 0);
    assert apdu[3] == code + 16 * extension;
    assert apdu[3] % 16 == code && apdu[3] / 16 == extension;
    assert SubOf(code) == Some(sub) && Modern(6, sub) == 6;
    assert InstructionStatus(6, sub, ProviderChecked, sub) == 0;
    assert apdu[5..] == chunk;
    hide InstructionStatus, Modern, SubOf, InsOf;
    assert InsOf(6) == Some(Process) by { CodeSix(); }
  }

  lemma CodeSix()
    ensures InsOf(6) == Some(Process)
  {
  }

  // What the receiver remembers of the first bytes of a proposal.
  function Remembering(rate: byte, sub: Sub, received: Bytes): Rx {
    Rx(true, InsCode(Process), rate, SubCode(sub), |received|)
  }

  lemma SplitReceived(rx: Rx, shared: Shared, rate: byte, sub: Sub, i: nat, n: nat, chunk: Bytes, received: Bytes)
    requires rate <= 1 && sub.IsNg() && i < n && 0 < |chunk| <= MAX_CHUNK_SIZE
    requires if i == 0 then received == [] else rx == Remembering(rate, sub, received) && shared == Chunks(received)
    ensures var r := Accept(rx, shared, ProviderChecked, sub, SplitApdu(Process, rate, sub, i, n, chunk));
            if i > 0 && |received| + |chunk| > RAW_TRANSACTION_SIZE then r == Rejected(INVALID_P2_EXTENSION)
            else if i == n - 1 then r.Complete? && r.command == Command(Process, rate, sub, received + chunk)
            else r.More? && r.rx == Remembering(rate, sub, received + chunk) && r.shared == Chunks(received + chunk)
  {
    SplitHeader(rate, sub, i, n, chunk);
    hide ReadHeader, SplitApdu, InsCode, SubCode;
    assert [] + chunk == chunk;
  }

  lemma CutShort(payload: Bytes)
    requires 1 <= |payload|
    ensures |payload| <= 255 ==> Cut(payload) == [payload]
    ensures 255 < |payload| <= 510 ==> Cut(payload) == [payload[..255], payload[255..]]
    ensures |payload| > 510 ==>
              && |Cut(payload)| >= 3 && Cut(payload)[0] == payload[..255] && Cut(payload)[1] == payload[255..510]
              && Cut(payload)[2] == payload[510..if |payload| <= 765 then |payload| else 765]
    ensures 510 < |payload| <= 765 ==> |Cut(payload)| == 3
  {
    if |payload| > 255 {
      var rest := payload[255..];
      if |rest| > 255 {
        assert rest[..255] == payload[255..510];
        var last := rest[255..];
        assert last == payload[510..];
        assert |last| > 255 ==> last[..255] == payload[510..765];
      }
    }
  }

  lemma FedTwo(rx: Rx, shared: Shared, sub: Sub, apdus: seq<Bytes>)
    requires apdus != []
    ensures var r := Accept(rx, shared, ProviderChecked, sub, apdus[0]);
            && Fed(rx, shared, sub, apdus)[0] == r
            && (r.More? ==> Fed(rx, shared, sub, apdus)[1..] == Fed(r.rx, r.shared, sub, apdus[1..]))
            && (r.Rejected? ==> Fed(rx, shared, sub, apdus)[1..] == Fed(rx, shared, sub, apdus[1..]))
  {
    hide Accept;
  }

  /** Splitting and reassembling undo each other: of 1 to 512 bytes every chunk but the last is answered
      with a success, and the last one delivers the payload, whatever was pending before. */
  lemma SplitReassembles(rx: Rx, shared: Shared, rate: byte, sub: Sub, payload: Bytes)
    requires rate <= 1 && sub.IsNg() && 1 <= |payload| <= RAW_TRANSACTION_SIZE
    ensures var r := Fed(rx, shared, sub, SplitApdus(Process, rate, sub, payload));
            && r != [] && (forall i :: 0 <= i < |r| - 1 ==> r[i].More?)
            && r[|r| - 1].Complete? && r[|r| - 1].command == Command(Process, rate, sub, payload)
  {
    hide Accept, SplitApdu, Fed, Cut;
    CutShort(payload);
    var cut := Cut(payload);
    var apdus, n := SplitApdus(Process, rate, sub, payload), |cut|;
    FedTwo(rx, shared, sub, apdus);
    SplitReceived(rx, shared, rate, sub, 0, n, cut[0], []);
    assert [] + cut[0] == cut[0];
    if n > 1 {
      var r0 := Accept(rx, shared, ProviderChecked, sub, apdus[0]);
      FedTwo(r0.rx, r0.shared, sub, apdus[1..]);
      SplitReceived(r0.rx, r0.shared, rate, sub, 1, n, cut[1], cut[0]);
      if n > 2 {
        var r1 := Accept(r0.rx, r0.shared, ProviderChecked, sub, apdus[1]);
        FedTwo(r1.rx, r1.shared, sub, apdus[1..][1..]);
        SplitReceived(r1.rx, r1.shared, rate, sub, 2, n, cut[2], cut[0] + cut[1]);
        assert cut[0] + cut[1] + cut[2] == payload;
      } else {
        assert cut[0] + cut[1] == payload;
      }
    }
  }

  lemma SliceBehind(payload: Bytes, from: nat, to: nat)
    requires from <= to && to + 255 <= |payload|
    ensures payload[255..][from..to] == payload[from + 255..to + 255]
  {
  }

  // Where the slices lie.
  lemma {:induction false} CutAt(payload: Bytes, i: nat)
    requires i < |Cut(payload)|
    ensures |Cut(payload)| == (|payload| + 254) / 255 && 255 * i < |payload|
    ensures Cut(payload)[i] == payload[255 * i..Min(255 * i + 255, |payload|)]
  {
    if |payload| > 255 {
      var rest := payload[255..];
      if i > 0 {
        CutAt(rest, i - 1);
        assert Cut(payload)[i] == Cut(rest)[i - 1] && |Cut(payload)| == 1 + |Cut(rest)|;
        hide Cut;
        SliceBehind(payload, 255 * (i - 1), Min(255 * (i - 1) + 255, |rest|));
      } else {
        CutAt(rest, 0);
      }
    }
  }

  // The last chunk of a payload that needs more than three is the only short one.
  lemma LastCut(payload: Bytes)
    requires |payload| > RAW_TRANSACTION_SIZE
    ensures var n := |Cut(payload)|;
            && n >= 3 && 255 * (n - 1) < |payload| <= 255 * n && Cut(payload)[n - 1] == payload[255 * (n - 1)..]
            && (|payload| - 255 * (n - 1) <= 2 <==> |payload| % 255 == 1 || |payload| % 255 == 2)
            && (|payload| % 255 != 0 ==> 255 * (n - 1) == |payload| - |payload| % 255)
  {
    CutShort(payload);
    hide Cut;
    var n, m := |Cut(payload)|, |payload|;
    CutAt(payload, n - 1);
    assert 255 * (n - 1) < m <= 255 * n;
    assert Min(255 * (n - 1) + 255, m) == m && payload[255 * (n - 1)..m] == payload[255 * (n - 1)..];
    Remainder(n - 1, m - 255 * (n - 1));
  }

  lemma Remainder(q: nat, d: nat)
    requires 1 <= d <= 255
    ensures (255 * q + d) % 255 == if d == 255 then 0 else d
  {
  }

  // A reception of a payload whose first two chunks are in: the third and all further ones are refused,
  // but for a last one of one or two bytes.
  ghost predicate Onward(payload: Bytes, rate: byte, sub: Sub, i: nat, n: nat, r: Reception)
    requires |payload| > RAW_TRANSACTION_SIZE
  {
    if i < n - 1 || !(|payload| % 255 == 1 || |payload| % 255 == 2) then r == Rejected(INVALID_P2_EXTENSION)
    else
      && r.Complete?
      && r.command == Command(Process, rate, sub, payload[..510] + payload[|payload| - |payload| % 255..])
  }

  lemma {:induction false} GoingOn(rx: Rx, shared: Shared, rate: byte, sub: Sub, payload: Bytes, i: nat)
    requires rate <= 1 && sub.IsNg() && |payload| > RAW_TRANSACTION_SIZE && 2 <= i <= |Cut(payload)|
    requires rx == Remembering(rate, sub, payload[..510]) && shared == Chunks(payload[..510])
    ensures var r := Fed(rx, shared, sub, SplitApdus(Process, rate, sub, payload)[i..]);
            |r| == |Cut(payload)| - i
            && forall j :: 0 <= j < |r| ==> Onward(payload, rate, sub, i + j, |Cut(payload)|, r[j])
    decreases |Cut(payload)| - i
  {
    hide Accept, SplitApdu, Fed, Cut, Onward;
    var cut := Cut(payload);
    var apdus, n := SplitApdus(Process, rate, sub, payload), |cut|;
    if i < n {
      var left := apdus[i..];
      assert left[1..] == apdus[i + 1..];
      FedTwo(rx, shared, sub, left);
      SplitReceived(rx, shared, rate, sub, i, n, cut[i], payload[..510]);
      OneOnward(rx, shared, rate, sub, payload, i);
      if i < n - 1 {
        GoingOn(rx, shared, rate, sub, payload, i + 1);
        var r, rest := Fed(rx, shared, sub, left), Fed(rx, shared, sub, left[1..]);
        forall j | 0 <= j < |r|
          ensures Onward(payload, rate, sub, i + j, n, r[j])
        {
          if j > 0 { assert r[1..][j - 1] == r[j] && Onward(payload, rate, sub, i + 1 + (j - 1), n, rest[j - 1]); }
        }
      }
    }
  }

  lemma OneOnward(rx: Rx, shared: Shared, rate: byte, sub: Sub, payload: Bytes, i: nat)
    requires rate <= 1 && sub.IsNg() && |payload| > RAW_TRANSACTION_SIZE && 2 <= i < |Cut(payload)|
    requires rx == Remembering(rate, sub, payload[..510]) && shared == Chunks(payload[..510])
    ensures var n := |Cut(payload)|;
            var r := Accept(rx, shared, ProviderChecked, sub, SplitApdu(Process, rate, sub, i, n, Cut(payload)[i]));
            Onward(payload, rate, sub, i, n, r) && (i < n - 1 ==> r.Rejected?)
  {
    hide Accept, SplitApdu, Cut;
    CutAt(payload, i);
    LastCut(payload);
    SplitReceived(rx, shared, rate, sub, i, |Cut(payload)|, Cut(payload)[i], payload[..510]);
  }

  /** Every payload that is too long, sent on to its end whatever the answers: the first two chunks are
      taken, and all others refused, but for a last one of one or two bytes, which still fits: that one
      delivers a command, of the payload's first 510 bytes and its last one or two. */
  lemma LongerExactly(rx: Rx, shared: Shared, rate: byte, sub: Sub, payload: Bytes)
    requires rate <= 1 && sub.IsNg() && |payload| > RAW_TRANSACTION_SIZE
    ensures var r := Fed(rx, shared, sub, SplitApdus(Process, rate, sub, payload));
            && |r| == (|payload| + 254) / 255 >= 3 && r[0].More? && r[1].More?
            && forall i :: 2 <= i < |r| ==> Onward(payload, rate, sub, i, |r|, r[i])
  {
    hide Accept, SplitApdu, Fed, Cut, Onward;
    CutShort(payload);
    var cut := Cut(payload);
    var apdus, n := SplitApdus(Process, rate, sub, payload), |cut|;
    CutAt(payload, 0);
    FedTwo(rx, shared, sub, apdus);
    SplitReceived(rx, shared, rate, sub, 0, n, cut[0], []);
    assert [] + cut[0] == cut[0];
    var r0 := Accept(rx, shared, ProviderChecked, sub, apdus[0]);
    FedTwo(r0.rx, r0.shared, sub, apdus[1..]);
    SplitReceived(r0.rx, r0.shared, rate, sub, 1, n, cut[1], cut[0]);
    var r1 := Accept(r0.rx, r0.shared, ProviderChecked, sub, apdus[1]);
    assert cut[0] + cut[1] == payload[..510] && apdus[1..][1..] == apdus[2..];
    GoingOn(r1.rx, r1.shared, rate, sub, payload, 2);
    var r, rest := Fed(rx, shared, sub, apdus), Fed(r1.rx, r1.shared, sub, apdus[2..]);
    forall i | 2 <= i < |r|
      ensures Onward(payload, rate, sub, i, |r|, r[i])
    {
      assert r[1..][1..][i - 2] == r[i] && Onward(payload, rate, sub, 2 + (i - 2), n, rest[i - 2]);
    }
  }

  /** So a payload that is too long ends in a delivery if and only if its length leaves one or two
      bytes, and what is delivered is never the payload. */
  lemma GoingOnDelivers(rx: Rx, shared: Shared, rate: byte, sub: Sub, payload: Bytes)
    requires rate <= 1 && sub.IsNg() && |payload| > RAW_TRANSACTION_SIZE
    ensures var r := Fed(rx, shared, sub, SplitApdus(Process, rate, sub, payload));
            && r != []
            && ((exists i :: 0 <= i < |r| && r[i].Complete?) <==> |payload| % 255 == 1 || |payload| % 255 == 2)
            && forall i :: 0 <= i < |r| && r[i].Complete? ==>
                 i == |r| - 1 && r[i].command.data == payload[..510] + payload[|payload| - |payload| % 255..] != payload
  {
    LongerExactly(rx, shared, rate, sub, payload);
    hide Fed, SplitApdus;
    var r := Fed(rx, shared, sub, SplitApdus(Process, rate, sub, payload));
    assert Onward(payload, rate, sub, |r| - 1, |r|, r[|r| - 1]);
  }

  /** In particular the client, which stops at an answer that is no success, stops at the third chunk
      with nothing delivered. */
  lemma LongerIsRefused(rx: Rx, shared: Shared, rate: byte, sub: Sub, payload: Bytes)
    requires rate <= 1 && sub.IsNg() && |payload| > RAW_TRANSACTION_SIZE
    ensures var r := Fed(rx, shared, sub, SplitApdus(Process, rate, sub, payload));
            |r| >= 3 && r[0].More? && r[1].More? && r[2] == Rejected(INVALID_P2_EXTENSION)
  {
    LongerExactly(rx, shared, rate, sub, payload);
    hide Fed, SplitApdus;
  }

  // The status words of the device's answers; that of a complete command is its handler's.
  predicate Answered(r: seq<Reception>, replies: seq<nat>) {
    |replies| == |r| && forall i :: 0 <= i < |r| ==>
      match r[i]
      case Rejected(status) => replies[i] == status
      case More(_, _, _) => replies[i] == SUCCESS
      case Complete(_, _, _, _) => true
  }

  /** Client and device together: up to 512 bytes the client sends every chunk, and the last one delivers the
      payload; of a longer one it sends three, and nothing is delivered. */
  lemma ClientAndDevice(rx: Rx, shared: Shared, rate: byte, sub: Sub, payload: Bytes, replies: seq<nat>,
                        sent: seq<Bytes>)
    requires rate <= 1 && sub.IsNg() && payload != []
    requires var all := SplitApdus(Process, rate, sub, payload);
             Answered(Fed(rx, shared, sub, all), replies) && SentUntilError(all, replies, sent)
    ensures var all := SplitApdus(Process, rate, sub, payload);
            var r := Fed(rx, shared, sub, all);
            if |payload| <= RAW_TRANSACTION_SIZE
            then sent == all && r[|all| - 1].Complete? && r[|all| - 1].command == Command(Process, rate, sub, payload)
            else |sent| == 3 && replies[2] == INVALID_P2_EXTENSION && forall i :: 0 <= i < 3 ==> !r[i].Complete?
  {
    hide Fed, SplitApdus;
    if |payload| <= RAW_TRANSACTION_SIZE {
      SplitReassembles(rx, shared, rate, sub, payload);
    } else {
      LongerIsRefused(rx, shared, rate, sub, payload);
    }
  }
}
