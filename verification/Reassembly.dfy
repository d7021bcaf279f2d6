/** What the reception of split commands (src/apdu_parser.c) guarantees over all runs: a delivered command
    is the concatenation of its chunks, whatever else was received in between. */
module Reassembly {
  import opened Common
  import opened Commands
  import opened Flow
  import opened Apdu
  import opened Device
  import opened Replay

  // --- the chunks of a command ---

  // The accepted APDUs since the last one that started a command.
  function SinceFirst(a: seq<Chunk>): seq<Chunk> {
    if a == [] then []
    else
      var n := |a| - 1;
      if a[n].header.first then [a[n]] else SinceFirst(a[..n]) + [a[n]]
  }

  function Concat(a: seq<Chunk>): Bytes { if a == [] then [] else Concat(a[..|a| - 1]) + a[|a| - 1].data }

  lemma SinceFirstMore(a: seq<Chunk>, c: Chunk)
    ensures SinceFirst(a + [c]) == if c.header.first then [c] else SinceFirst(a) + [c]
  {
    assert (a + [c])[..|a|] == a;
  }

  lemma ConcatMore(a: seq<Chunk>, c: Chunk)
    ensures Concat(a + [c]) == Concat(a) + c.data
  {
    assert (a + [c])[..|a|] == a;
  }

  lemma ConcatOne(c: Chunk)
    ensures Concat([c]) == c.data
  {
    ConcatMore([], c);
    assert [] + [c] == [c];
  }

  predicate SameCommand(h: Header, cmd: Command) { h.ins == cmd.ins && h.rate == cmd.rate && h.sub == cmd.sub }

  // --- what is remembered between APDUs ---

  predicate Open(a: seq<Chunk>) { a != [] && !a[|a| - 1].header.last }

  // The chunks of an unfinished command, as the receiver remembers them.
  predicate Gathered(rx: Rx, c: Context, g: seq<Chunk>) {
    && (forall k :: 0 <= k < |g| ==> Matching(rx, g[k].header))
    && rx.length == |Concat(g)| <= RAW_TRANSACTION_SIZE
    && (c.state.Initial? || (c.state.ProviderChecked? && c.shared == Chunks(Concat(g))))
  }

  predicate Buffered(rx: Rx, c: Context, a: seq<Chunk>) {
    (rx.expecting <==> Open(a)) && (rx.expecting ==> Gathered(rx, c, SinceFirst(a)))
  }

  /** Receiving one APDU that fits the memory of the earlier ones. */
  lemma ReceiveGathers(rx: Rx, c: Context, a: seq<Chunk>, chunk: Chunk)
    requires Buffered(rx, c, a) && |chunk.data| <= 255 && c.state.ProviderChecked?
    ensures match Receive(rx, c.shared, chunk)
            case Rejected(status) => status == INVALID_P2_EXTENSION
            case More(rx', shared, k) => k == chunk && Buffered(rx', c.(shared := shared), a + [chunk])
            case Complete(rx', _, k, cmd) =>
              k == chunk && !rx'.expecting && chunk.header.last && Delivered(cmd, a + [chunk])
  {
    hide SinceFirst, Concat, InsCode, SubCode;
    SinceFirstMore(a, chunk);
    ConcatOne(chunk);
    ConcatMore(SinceFirst(a), chunk);
    if !chunk.header.first && rx.expecting && Matching(rx, chunk.header) { SameKind(rx, SinceFirst(a), chunk.header); }
    hide Matching;
  }

  lemma SameKind(rx: Rx, g: seq<Chunk>, h: Header)
    requires Matching(rx, h) && forall k :: 0 <= k < |g| ==> Matching(rx, g[k].header)
    ensures forall k :: 0 <= k < |g| ==>
              g[k].header.ins == h.ins && g[k].header.rate == h.rate && g[k].header.sub == h.sub
  {
    forall k | 0 <= k < |g|
      ensures g[k].header.ins == h.ins && g[k].header.sub == h.sub
    {
      CodesTell(g[k].header, h);
    }
  }

  lemma CodesTell(g: Header, h: Header)
    requires InsCode(g.ins) == InsCode(h.ins) && SubCode(g.sub) == SubCode(h.sub)
    ensures g.ins == h.ins && g.sub == h.sub
  {
  }

  // The command is the concatenation of the chunks since its first, all of its kind, and fits the buffer.
  ghost predicate Delivered(cmd: Command, a: seq<Chunk>) {
    && cmd.data == Concat(SinceFirst(a)) && |cmd.data| <= RAW_TRANSACTION_SIZE
    && forall k :: 0 <= k < |SinceFirst(a)| ==> SameCommand(SinceFirst(a)[k].header, cmd)
  }

  lemma WholeDelivered(rx: Rx, shared: Shared, a: seq<Chunk>, chunk: Chunk)
    requires chunk.header.first && chunk.header.last && |chunk.data| <= 255
    ensures var r := Receive(rx, shared, chunk);
            r.Complete? && r.chunk == chunk && !r.rx.expecting && Delivered(r.command, a + [chunk])
  {
    hide Concat;
    SinceFirstMore(a, chunk);
    ConcatOne(chunk);
  }

  // An APDU's data fits its length byte; only in PROVIDER_CHECKED is a part of a command accepted.
  lemma HeaderData(apdu: Bytes, state: State, flow: Sub)
    requires ReadHeader(apdu, state, flow).GoodHeader?
    ensures |apdu| >= 5 && |apdu[5..]| <= 255
    ensures var h := ReadHeader(apdu, state, flow).header; (h.first && h.last) || state.ProviderChecked?
  {
    HeaderWelcome(apdu, state, flow);
    var h := ReadHeader(apdu, state, flow).header;
    WelcomeProcess(h.ins, h.sub, state, flow);
    hide Welcome, ReadExtension, InstructionStatus, Modern;
  }

  lemma AcceptGathers(rx: Rx, c: Context, a: seq<Chunk>, apdu: Bytes)
    requires Buffered(rx, c, a)
    ensures match Accept(rx, c.shared, c.state, c.sub, apdu)
            case Rejected(_) => true
            case More(rx', shared, k) => Buffered(rx', c.(shared := shared), a + [k])
            case Complete(rx', _, k, cmd) => !rx'.expecting && k.header.last && Delivered(cmd, a + [k])
  {
    hide ReadHeader, Receive, Buffered, Delivered;
    match ReadHeader(apdu, c.state, c.sub) {
      case BadHeader(_) =>
      case GoodHeader(h) =>
        HeaderData(apdu, c.state, c.sub);
        var chunk := Chunk(h, apdu[5..]);
        if h.first && h.last {
          WholeDelivered(rx, c.shared, a, chunk);
        } else {
          ReceiveGathers(rx, c, a, chunk);
        }
    }
  }

  // --- all runs ---

  ghost predicate Remembers(w: World) { Buffered(w.rx, w.context, w.accepted) }

  lemma ClosedRemembers(rx: Rx, c: Context, a: seq<Chunk>)
    requires !rx.expecting && !Open(a)
    ensures Buffered(rx, c, a)
  {
  }

  // A dispatched command leaves the memory of the chunks alone, or closed.
  lemma DispatchKeepsRx(p: Platform, w: World, cmd: Command, rng: Random, sent: bool, roll: Word)
    ensures var v := Dispatch(p, w, cmd, rng, sent, roll).0; v.accepted == w.accepted && (v.rx == w.rx || v.rx == NO_RX)
  {
    hide Handle, Logged, Noted, Prompted;
  }

  // Without an answer pending, nothing but an APDU moves the context of an unfinished command.
  lemma OthersRemember(p: Platform, w: World, i: Input)
    requires Remembers(w) && Sound(p, w) && !i.Apdu?
    ensures Remembers(Step(p, w, i).0)
  {
    hide Accept, Dispatch, Traced, ReviewPairs, SinceFirst, Concat, Open, Matching;
  }

  lemma StepRemembers(p: Platform, w: World, i: Input)
    requires Remembers(w) && Sound(p, w)
    ensures Remembers(Step(p, w, i).0)
  {
    hide Sound, Accept, Dispatch, Buffered;
    if i.Apdu? {
      var c := w.context;
      AcceptGathers(w.rx, c, w.accepted, i.bytes);
      match Accept(w.rx, c.shared, c.state, c.sub, i.bytes) {
        case Rejected(_) =>
        case More(_, _, _) =>
        case Complete(rx, shared, chunk, cmd) =>
          var d := w.(rx := rx, context := c.(shared := shared), accepted := w.accepted + [chunk]);
          DispatchKeepsRx(p, d, cmd, i.rng, i.sent, i.roll);
          var v := Dispatch(p, d, cmd, i.rng, i.sent, i.roll).0;
          ClosedRemembers(v.rx, v.context, v.accepted);
      }
    } else {
      OthersRemember(p, w, i);
    }
  }

  lemma {:induction false} RunRemembers(p: Platform, boot: Word, inputs: seq<Input>)
    ensures Remembers(Run(p, boot, inputs))
  {
    hide Step, Sound, Buffered;
    if inputs == [] {
      ClosedRemembers(NO_RX, ZERO, []);
    } else {
      var n := |inputs| - 1;
      RunRemembers(p, boot, inputs[..n]);
      RunSound(p, boot, inputs[..n]);
      StepRemembers(p, Run(p, boot, inputs[..n]), inputs[n]);
    }
  }

  /** Reassembly refines concatenation: in every run, a command is delivered with exactly the
      concatenation of the chunks accepted since its first one, all of the same instruction, rate and
      subcommand, and never more than 512 bytes. */
  lemma DeliveredIsConcatenation(p: Platform, boot: Word, inputs: seq<Input>, apdu: Bytes)
    ensures var w := Run(p, boot, inputs);
            match Accept(w.rx, w.context.shared, w.context.state, w.context.sub, apdu)
            case Complete(_, _, chunk, cmd) => Delivered(cmd, w.accepted + [chunk])
            case _ => true
  {
    var w := Run(p, boot, inputs);
    RunRemembers(p, boot, inputs);
    hide Run, Accept, Buffered, Delivered;
    AcceptGathers(w.rx, w.context, w.accepted, apdu);
  }

  /** A rejected APDU changes nothing. */
  lemma RejectedChangesNothing(p: Platform, w: World, i: Input)
    requires i.Apdu? && Accept(w.rx, w.context.shared, w.context.state, w.context.sub, i.bytes).Rejected?
    ensures Step(p, w, i).0 == w
  {
    hide Accept, Dispatch;
  }

  /** An accepted APDU that completes a command, whole or last chunk, drops whatever was pending: the
      next APDU is refused if it extends. */
  lemma CompletionDropsPending(p: Platform, w: World, i: Input, state: State, flow: Sub, shared: Shared, next: Bytes)
    requires i.Apdu? && Accept(w.rx, w.context.shared, w.context.state, w.context.sub, i.bytes).Complete?
    ensures var v := Step(p, w, i).0;
            match ReadHeader(next, state, flow)
            case BadHeader(_) => Accept(v.rx, shared, state, flow, next).Rejected?
            case GoodHeader(h) => h.first || Accept(v.rx, shared, state, flow, next) == Rejected(INVALID_P2_EXTENSION)
  {
    CompleteCloses(w.rx, w.context.shared, w.context.state, w.context.sub, i.bytes);
    var r := Accept(w.rx, w.context.shared, w.context.state, w.context.sub, i.bytes);
    var d := w.(rx := r.rx, context := w.context.(shared := r.shared), accepted := w.accepted + [r.chunk]);
    hide Accept, Dispatch, ReadHeader;
    DispatchKeepsRx(p, d, r.command, i.rng, i.sent, i.roll);
    ClosedRefuses(Step(p, w, i).0.rx, shared, state, flow, next);
  }

  lemma CompleteCloses(rx: Rx, shared: Shared, state: State, flow: Sub, apdu: Bytes)
    requires Accept(rx, shared, state, flow, apdu).Complete?
    ensures !Accept(rx, shared, state, flow, apdu).rx.expecting
  {
    hide ReadHeader;
  }

  lemma ClosedRefuses(rx: Rx, shared: Shared, state: State, flow: Sub, next: Bytes)
    requires !rx.expecting
    ensures match ReadHeader(next, state, flow)
            case BadHeader(_) => Accept(rx, shared, state, flow, next).Rejected?
            case GoodHeader(h) => h.first || Accept(rx, shared, state, flow, next) == Rejected(INVALID_P2_EXTENSION)
  {
    hide ReadHeader;
  }
}
