/** The client commands of the Bitcoin helper client and the queue they share
    (test/python/apps/bitcoin_client/ledger_bitcoin/client_command.py). */
module ClientCommands {
  import opened Common
  import opened Merkle

  // --- compact sizes (write_varint and ByteStreamParser.read_varint) ---

  function LittleEndian(b: Bytes): nat { if b == [] then 0 else b[0] as int + 256 * LittleEndian(b[1..]) }

  function ToLittle(n: nat, k: nat): (b: Bytes)
    ensures |b| == k
  {
    if k == 0 then [] else [n % 256] + ToLittle(n / 256, k - 1)
  }

  function WriteVarint(n: nat): Option<Bytes> {
    if n <= 0xFC then Some([n])
    else if n <= 0xFFFF then Some([0xFD] + ToLittle(n, 2))
    else if n <= 0xFFFF_FFFF then Some([0xFE] + ToLittle(n, 4))
    else if n < TWO_64 then Some([0xFF] + ToLittle(n, 8))
    else None
  }

  function ReadVarint(s: Bytes): Option<(nat, Bytes)> {
    if s == [] then None
    else
      var k := if s[0] == 0xFD then 2 else if s[0] == 0xFE then 4 else if s[0] == 0xFF then 8 else 0;
      if k == 0 then Some((s[0] as int, s[1..]))
      else if |s| < 1 + k then None
      else Some((LittleEndian(s[1..1 + k]), s[1 + k..]))
  }

  lemma {:induction false} LittleRoundTrip(n: nat, k: nat)
    requires n < Pow(256, k)
    ensures LittleEndian(ToLittle(n, k)) == n
  {
    if k > 0 {
      assert Pow(256, k) == 256 * Pow(256, k - 1);
      LittleRoundTrip(n / 256, k - 1);
      assert ToLittle(n, k)[1..] == ToLittle(n / 256, k - 1);
    }
  }

  lemma ByteWidths()
    ensures Pow(256, 2) == 0x1_0000 && Pow(256, 4) == TWO_32 && Pow(256, 8) == TWO_64
  {
    assert Pow(256, 0) == 1;
    assert Pow(256, 1) == 256;
    assert Pow(256, 2) == 0x1_0000;
    PowAdd(256, 2, 2);
    PowAdd(256, 4, 4);
  }

  /** A compact size reads back. */
  lemma VarintReads(n: nat, rest: Bytes)
    requires n < TWO_64
    ensures WriteVarint(n).Some? && ReadVarint(WriteVarint(n).value + rest) == Some((n, rest))
  {
    hide ToLittle, LittleEndian, Pow;
    ByteWidths();
    var k := if n <= 0xFC then 0 else if n <= 0xFFFF then 2 else if n <= 0xFFFF_FFFF then 4 else 8;
    var s := WriteVarint(n).value + rest;
    if k > 0 {
      LittleRoundTrip(n, k);
      assert s[1..1 + k] == ToLittle(n, k);
    }
    assert s[1 + k..] == rest;
  }

  // --- the queue ---

  function Flatten(q: seq<Bytes>): Bytes { if q == [] then [] else q[0] + Flatten(q[1..]) }

  lemma {:induction false} FlattenJoins(a: seq<Bytes>, b: seq<Bytes>)
    ensures Flatten(a + b) == Flatten(a) + Flatten(b)
  {
    if a == [] {
      assert a + b == b;
    } else {
      FlattenJoins(a[1..], b);
      assert (a + b)[0] == a[0] && (a + b)[1..] == a[1..] + b;
      Assoc(a[0], Flatten(a[1..]), Flatten(b));
    }
  }

  lemma Assoc(a: Bytes, b: Bytes, c: Bytes)
    ensures a + (b + c) == (a + b) + c
  {
  }

  lemma FlattenOne(e: Bytes)
    ensures Flatten([e]) == e
  {
    assert [e][1..] == [];
  }

  ghost predicate AllOf(q: seq<Bytes>, n: nat) { forall i :: 0 <= i < |q| ==> |q[i]| == n }

  lemma {:induction false} FlattenLength(q: seq<Bytes>, n: nat)
    requires AllOf(q, n)
    ensures |Flatten(q)| == |q| * n
  {
    if q != [] { FlattenLength(q[1..], n); }
  }

  // The bytes of a string, one by one.
  function Singles(b: Bytes): (q: seq<Bytes>)
    ensures |q| == |b| && AllOf(q, 1)
  {
    seq(|b|, i requires 0 <= i < |b| => [b[i]])
  }

  lemma {:induction false} SinglesFlatten(b: Bytes)
    ensures Flatten(Singles(b)) == b
  {
    if b != [] {
      SinglesFlatten(b[1..]);
      assert Singles(b)[1..] == Singles(b[1..]);
      assert b == [b[0]] + b[1..];
    }
  }

  // --- the commands as functions ---

  datatype Response = Answer(bytes: Bytes) | Raised

  // What an interpreter knows: preimages by hash, and lists by Merkle root.
  datatype Known = Known(sha: Hash, preimages: map<Bytes, Bytes>, trees: map<Bytes, seq<Bytes>>)

  // The lists are lists of hashes.
  ghost predicate KnownWell(k: Known) {
    forall r :: r in k.trees ==> AllOf(k.trees[r], 32)
  }

  // The hash in a GET_PREIMAGE request.
  function PreimageRequest(request: Bytes): Option<Bytes> {
    if |request| == 34 && request[1] == 0 then Some(request[2..]) else None
  }

  // The front of the preimage in one message, and the bytes left for later.
  function SplitPreimage(preimage: Bytes, head: Bytes): (Bytes, seq<Bytes>) {
    var size := if |head| <= 254 then Min(254 - |head|, |preimage|) else 0;
    (head + [size] + preimage[..size], Singles(preimage[size..]))
  }

  function GetPreimage(k: Known, queue: seq<Bytes>, request: Bytes): (Response, seq<Bytes>) {
    match PreimageRequest(request)
    case None => (Raised, queue)
    case Some(hash) =>
      if hash !in k.preimages then (Raised, queue)
      else match WriteVarint(|k.preimages[hash]|)
           case None => (Raised, queue)
           case Some(head) =>
             var (answer, extra) := SplitPreimage(k.preimages[hash], head);
             (Answer(answer), queue + extra)
  }

  // Root, size and index of a GET_MERKLE_LEAF_PROOF request.
  function ProofRequest(request: Bytes): Option<(Bytes, nat, nat)> {
    if |request| < 33 then None
    else match ReadVarint(request[33..])
         case None => None
         case Some((size, rest)) =>
           match ReadVarint(rest)
           case None => None
           case Some((index, end)) => if end == [] then Some((request[1..33], size, index)) else None
  }

  // Six hashes fit a message besides the leaf and the two counts.
  function SplitProof(leaf: Bytes, proof: seq<Bytes>): (Bytes, seq<Bytes>)
    requires |proof| < 0x100
  {
    var n := Min(6, |proof|);
    (leaf + [|proof|] + [n] + Flatten(proof[..n]), proof[n..])
  }

  function GetMerkleLeafProof(k: Known, queue: seq<Bytes>, request: Bytes): (Response, seq<Bytes>) {
    match ProofRequest(request)
    case None => (Raised, queue)
    case Some((root, size, index)) =>
      if root !in k.trees || index >= size || |k.trees[root]| != size || queue != [] then (Raised, queue)
      else
        var proof := Path(k.sha, index, k.trees[root]);
        if |proof| >= 0x100 then (Raised, queue + proof[6..])
        else
          var (answer, extra) := SplitProof(k.trees[root][index], proof);
          (Answer(answer), queue + extra)
  }

  predicate Uniform(queue: seq<Bytes>) { forall i :: 0 <= i < |queue| ==> |queue[i]| == |queue[0]| }

  // How many elements of this length are taken at once.
  function Taken(queue: seq<Bytes>, n: nat): (t: nat)
    ensures t <= |queue|
  {
    if n == 0 then |queue| else Min(|queue|, 253 / n)
  }

  function GetMoreElements(queue: seq<Bytes>, request: Bytes): (Response, seq<Bytes>) {
    if |request| != 1 || queue == [] || !Uniform(queue) then (Raised, queue)
    else
      var n := |queue[0]|;
      var t := Taken(queue, n);
      if t >= 0x100 || n >= 0x100 then (Raised, queue[t..])
      else (Answer([t, n] + Flatten(queue[..t])), queue[t..])
  }

  function GetMerkleLeafIndex(k: Known, request: Bytes): Response {
    if |request| != 65 || request[1..33] !in k.trees then Raised
    else match FirstAt(k.trees[request[1..33]], request[33..])
         case None => Answer([0, 0])
         case Some(i) => (match WriteVarint(i) case None => Raised case Some(v) => Answer([1] + v))
  }

  function FirstAt(leaves: seq<Bytes>, x: Bytes): (r: Option<nat>)
    ensures match r
            case None => x !in leaves
            case Some(i) => i < |leaves| && leaves[i] == x && x !in leaves[..i]
  {
    if leaves == [] then None
    else if leaves[0] == x then Some(0)
    else match FirstAt(leaves[1..], x) case None => None case Some(i) => Some(i + 1)
  }

  /** execute: the response and the queue after one request. */
  function Executed(k: Known, queue: seq<Bytes>, request: Bytes): (Response, seq<Bytes>) {
    if request == [] then (Raised, queue)
    else if request[0] == 0x10 then (Answer([]), queue)
    else if request[0] == 0x40 then GetPreimage(k, queue, request)
    else if request[0] == 0x41 then GetMerkleLeafProof(k, queue, request)
    else if request[0] == 0x42 then (GetMerkleLeafIndex(k, request), queue)
    else if request[0] == 0xA0 then GetMoreElements(queue, request)
    else (Raised, queue)
  }

  // --- the interpreter as an object ---

  class Interpreter {
    const known: Known
    var queue: seq<Bytes>
    var yielded: seq<Bytes>

    constructor (known: Known)
      ensures this.known == known && queue == [] && yielded == []
    {
      this.known, queue, yielded := known, [], [];
    }

    method Execute(request: Bytes) returns (r: Response)
      modifies this
      ensures r == Executed(known, old(queue), request).0 && queue == Executed(known, old(queue), request).1
      ensures yielded == old(yielded) + if request != [] && request[0] == 0x10 then [request[1..]] else []
    {
      hide GetPreimage, GetMerkleLeafProof, GetMoreElements, GetMerkleLeafIndex;
      if |request| == 0 {
        return Raised;
      }
      match request[0] {
        case 0x10 =>
          yielded := yielded + [request[1..]];
          r := Answer([]);
        case 0x40 => r := GetPreimageCommand(request);
        case 0x41 => r := GetMerkleLeafProofCommand(request);
        case 0x42 => r := GetMerkleLeafIndexCommand(request);
        case 0xA0 => r := GetMoreElementsCommand(request);
        case _ => r := Raised;
      }
    }

    method GetPreimageCommand(request: Bytes) returns (r: Response)
      modifies this`queue
      ensures r == GetPreimage(known, old(queue), request).0 && queue == GetPreimage(known, old(queue), request).1
    {
      hide Singles;
      if |request| < 2 || request[1] != 0 || |request| != 34 {
        return Raised;
      }
      var hash := request[2..];
      if hash !in known.preimages {
        return Raised;
      }
      var preimage := known.preimages[hash];
      var head := WriteVarint(|preimage|);
      if head.None? {
        return Raised;
      }
      HeadLength(|preimage|);
      hide WriteVarint;
      var maxSize := 255 - |head.value| - 1;
      var size := Min(maxSize, |preimage|);
      if size < |preimage| {
        queue := queue + Singles(preimage[size..]);
      } else {
        assert Singles(preimage[size..]) == [] && queue + [] == queue;
      }
      r := Answer(head.value + [size] + preimage[..size]);
    }

    method GetMerkleLeafProofCommand(request: Bytes) returns (r: Response)
      modifies this`queue
      ensures r == GetMerkleLeafProof(known, old(queue), request).0
              && queue == GetMerkleLeafProof(known, old(queue), request).1
    {
      hide ProofRequest, Path, Flatten;
      var parsed := ProofRequest(request);
      if parsed.None? {
        return Raised;
      }
      var (root, size, index) := parsed.value;
      if root !in known.trees {
        return Raised;
      }
      var leaves := known.trees[root];
      if index >= size || |leaves| != size {
        return Raised;
      }
      if |queue| != 0 {
        return Raised;
      }
      var proof := Path(known.sha, index, leaves);
      var n := Min((255 - 32 - 1 - 1) / 32, |proof|);
      var leftover := |proof| - n;
      assert proof[n..] == proof[|proof| - leftover..];
      if leftover > 0 {
        queue := queue + proof[|proof| - leftover..];
      } else {
        assert proof[n..] == [] && queue + [] == queue;
      }
      if |proof| >= 0x100 {
        return Raised;
      }
      r := Answer(leaves[index] + [|proof|] + [n] + Flatten(proof[..n]));
    }

    method GetMerkleLeafIndexCommand(request: Bytes) returns (r: Response)
      ensures r == GetMerkleLeafIndex(known, request)
    {
      hide WriteVarint;
      if |request| != 65 || request[1..33] !in known.trees {
        return Raised;
      }
      var leaves := known.trees[request[1..33]];
      var found, index := LeafIndex(leaves, request[33..]);
      if !found {
        return Answer([0, 0]);
      }
      var v := WriteVarint(index);
      r := if v.None? then Raised else Answer([1] + v.value);
    }

    // MerkleTree.leaf_index
    method LeafIndex(leaves: seq<Bytes>, x: Bytes) returns (found: bool, index: nat)
      ensures match FirstAt(leaves, x) case None => !found case Some(i) => found && index == i
    {
      index := 0;
      while index < |leaves|
        invariant 0 <= index <= |leaves| && x !in leaves[..index]
      {
        if leaves[index] == x {
          FirstIs(leaves, x, index);
          return true, index;
        }
        index := index + 1;
      }
      assert leaves[..index] == leaves;
      found := false;
    }

    lemma {:induction false} FirstIs(leaves: seq<Bytes>, x: Bytes, i: nat)
      requires i < |leaves| && leaves[i] == x && x !in leaves[..i]
      ensures FirstAt(leaves, x) == Some(i)
    {
      if i > 0 {
        assert leaves[..i][0] == leaves[0] && leaves[1..][..i - 1] == leaves[..i][1..];
        FirstIs(leaves[1..], x, i - 1);
      }
    }

    method GetMoreElementsCommand(request: Bytes) returns (r: Response)
      modifies this`queue
      ensures r == GetMoreElements(old(queue), request).0 && queue == GetMoreElements(old(queue), request).1
    {
      if |request| != 1 {
        return Raised;
      }
      if |queue| == 0 {
        return Raised;
      }
      var n := |queue[0]|;
      if exists i :: 0 <= i < |queue| && |queue[i]| != n {
        return Raised;
      }
      var payload, t := TakeElements(n);
      if t >= 0x100 || n >= 0x100 {
        return Raised;
      }
      r := Answer([t, n] + payload);
    }

    // The loop that pops while the response has room.
    method TakeElements(n: nat) returns (payload: Bytes, t: nat)
      requires forall i :: 0 <= i < |queue| ==> |queue[i]| == n
      modifies this`queue
      ensures t == Taken(old(queue), n) && payload == Flatten(old(queue)[..t]) && queue == old(queue)[t..]
    {
      payload, t := [], 0;
      while |queue| > 0 && |payload| + n <= 253
        invariant t <= |old(queue)| && queue == old(queue)[t..]
        invariant payload == Flatten(old(queue)[..t]) && |payload| == t * n && t * n <= 253
        decreases |queue|
      {
        ghost var before := old(queue)[..t];
        FlattenJoins(before, [queue[0]]);
        FlattenOne(queue[0]);
        assert old(queue)[..t + 1] == before + [queue[0]];
        payload := payload + queue[0];
        queue := queue[1..];
        t := t + 1;
      }
      TakenIs(old(queue), n, t);
    }

    lemma TakenIs(q: seq<Bytes>, n: nat, t: nat)
      requires t <= |q| && t * n <= 253 && (t < |q| ==> t * n + n > 253)
      ensures t == Taken(q, n)
    {
      if n > 0 {
        var k: nat := 253 / n;
        Quotient(253, n, k);
        Between(n, k, t);
        if t < |q| { Between(n, t, k); }
      }
    }
  }

  lemma Quotient(m: nat, n: nat, k: nat)
    requires n > 0 && k == m / n
    ensures k * n <= m < k * n + n
  {
  }

  // The multiples of n around 253 are found only once.
  lemma Between(n: nat, k: nat, t: nat)
    requires t * n <= 253 < k * n + n
    ensures t <= k
  {
    Grows(k + 1, t, n);
    assert (k + 1) * n == k * n + n;
  }

  lemma Grows(a: nat, b: nat, n: nat)
    ensures a <= b ==> a * n <= b * n
  {
  }

  // --- what is delivered ---

  // Single bytes of a preimage, and hashes of a proof, are all there ever is in the queue.
  ghost predicate Healthy(queue: seq<Bytes>) { forall i :: 0 <= i < |queue| ==> |queue[i]| == 1 || |queue[i]| == 32 }

  predicate AsksMore(request: Bytes) { request == [0xA0] }

  /** Nothing is lost or reordered: GET_MORE_ELEMENTS delivers the front of the queue, or changes nothing;
      every other command at most adds behind. No response is longer than 255 bytes. */
  lemma StepConserves(k: Known, queue: seq<Bytes>, request: Bytes)
    requires KnownWell(k) && Healthy(queue)
    ensures var (r, queue') := Executed(k, queue, request);
            && Healthy(queue') && (r.Answer? ==> |r.bytes| <= 255)
            && (!AsksMore(request) ==> queue <= queue')
            && (AsksMore(request) && r.Raised? ==> queue' == queue)
            && (AsksMore(request) && r.Answer? ==>
                |r.bytes| >= 2 && r.bytes[2..] + Flatten(queue') == Flatten(queue) && |queue'| < |queue|)
  {
    hide GetPreimage, GetMerkleLeafProof, GetMerkleLeafIndex, Flatten, KnownWell, Healthy;
    if request != [] {
      if request[0] == 0x40 {
        PreimageFits(k, queue, request);
      } else if request[0] == 0x41 {
        ProofFits(k, queue, request);
      } else if request[0] == 0x42 {
        IndexFits(k, request);
      } else if AsksMore(request) {
        MoreFits(queue);
      }
    }
  }

  lemma PreimageFits(k: Known, queue: seq<Bytes>, request: Bytes)
    requires Healthy(queue)
    ensures var (r, queue') := GetPreimage(k, queue, request);
            queue <= queue' && Healthy(queue') && (r.Answer? ==> |r.bytes| <= 255)
  {
    hide WriteVarint, Singles;
    if PreimageRequest(request).Some? && PreimageRequest(request).value in k.preimages {
      HeadLength(|k.preimages[PreimageRequest(request).value]|);
    }
  }

  lemma IndexFits(k: Known, request: Bytes)
    ensures var r := GetMerkleLeafIndex(k, request); r.Answer? ==> |r.bytes| <= 255
  {
    hide WriteVarint;
    if |request| == 65 && request[1..33] in k.trees {
      var f := FirstAt(k.trees[request[1..33]], request[33..]);
      if f.Some? { HeadLength(f.value); }
    }
  }

  // Proofs are lists of hashes.
  lemma {:induction false} PathOfDigests(sha: Hash, m: nat, d: seq<Bytes>)
    requires m < |d| && AllOf(d, 32)
    ensures AllOf(Path(sha, m, d), 32)
  {
    if |d| > 1 {
      var h := Split(|d|);
      var left, right := d[..h], d[h..];
      RootIsDigest(sha, left);
      RootIsDigest(sha, right);
      if m < h {
        PathOfDigests(sha, m, left);
      } else {
        PathOfDigests(sha, m - h, right);
      }
    }
  }

  lemma ProofFits(k: Known, queue: seq<Bytes>, request: Bytes)
    requires KnownWell(k) && Healthy(queue)
    ensures var (r, queue') := GetMerkleLeafProof(k, queue, request);
            queue <= queue' && Healthy(queue') && (r.Answer? ==> |r.bytes| <= 255)
  {
    hide ProofRequest, Path, Flatten;
    var parsed := ProofRequest(request);
    if parsed.Some? {
      var (root, size, index) := parsed.value;
      if root in k.trees && index < size && |k.trees[root]| == size {
        var proof := Path(k.sha, index, k.trees[root]);
        PathOfDigests(k.sha, index, k.trees[root]);
        FlattenLength(proof[..Min(6, |proof|)], 32);
      }
    }
  }

  lemma TakenFits(queue: seq<Bytes>, n: nat)
    requires queue != [] && AllOf(queue, n) && (n == 1 || n == 32)
    ensures var t := Taken(queue, n); 1 <= t < 0x100 && |Flatten(queue[..t])| <= 253
  {
    FlattenLength(queue[..Taken(queue, n)], n);
  }

  // A response with elements to give.
  lemma MoreAnswers(queue: seq<Bytes>, n: nat)
    requires queue != [] && AllOf(queue, n) && (n == 1 || n == 32)
    ensures var t := Taken(queue, n);
            1 <= t <= |queue| && t < 0x100 && GetMoreElements(queue, [0xA0])
              == (Answer([t, n] + Flatten(queue[..t])), queue[t..])
  {
    hide Flatten;
  }

  lemma MoreRaises(queue: seq<Bytes>)
    ensures queue == [] || !Uniform(queue) ==> GetMoreElements(queue, [0xA0]) == (Raised, queue)
  {
    hide Taken, Flatten;
  }

  lemma MoreFits(queue: seq<Bytes>)
    requires Healthy(queue)
    ensures var (r, queue') := GetMoreElements(queue, [0xA0]);
            && Healthy(queue') && (r.Raised? <==> queue == [] || !Uniform(queue)) && (r.Raised? ==> queue' == queue)
            && (r.Answer? ==>
                  2 <= |r.bytes| <= 255 && r.bytes[2..] + Flatten(queue') == Flatten(queue) && |queue'| < |queue|)
            && (Uniform(queue) ==> Uniform(queue'))
  {
    hide Flatten, Taken, GetMoreElements, Healthy, Uniform, AllOf;
    MoreRaises(queue);
    if queue != [] && Uniform(queue) {
      var n := |queue[0]|;
      UniformLengths(queue);
      MoreAnswers(queue, n);
      var t := Taken(queue, n);
      var front, back := queue[..t], queue[t..];
      TakenFits(queue, n);
      BackOf(queue, t);
      FlattenJoins(front, back);
      assert front + back == queue;
      assert ([t, n] + Flatten(front))[2..] == Flatten(front);
    }
  }

  lemma UniformLengths(queue: seq<Bytes>)
    requires Healthy(queue) && Uniform(queue) && queue != []
    ensures AllOf(queue, |queue[0]|) && (|queue[0]| == 1 || |queue[0]| == 32)
  {
  }

  lemma BackOf(queue: seq<Bytes>, t: nat)
    requires Healthy(queue) && Uniform(queue) && t <= |queue|
    ensures Healthy(queue[t..]) && Uniform(queue[t..])
  {
  }

  // The queue after some requests.
  function QueueAfter(k: Known, queue: seq<Bytes>, requests: seq<Bytes>): seq<Bytes>
    decreases |requests|
  {
    if requests == [] then queue else QueueAfter(k, Executed(k, queue, requests[0]).1, requests[1..])
  }

  // The bytes delivered out of the queue, and the bytes put in.
  function DeliveredOf(k: Known, queue: seq<Bytes>, requests: seq<Bytes>): Bytes
    decreases |requests|
  {
    if requests == [] then []
    else
      var (r, queue') := Executed(k, queue, requests[0]);
      (if AsksMore(requests[0]) && r.Answer? && |r.bytes| >= 2 then r.bytes[2..] else [])
        + DeliveredOf(k, queue', requests[1..])
  }

  function AddedBy(k: Known, queue: seq<Bytes>, requests: seq<Bytes>): Bytes
    decreases |requests|
  {
    if requests == [] then []
    else
      var queue' := Executed(k, queue, requests[0]).1;
      (if !AsksMore(requests[0]) && queue <= queue' then Flatten(queue'[|queue|..]) else [])
        + AddedBy(k, queue', requests[1..])
  }

  /** Every run: what GET_MORE_ELEMENTS has delivered and what is left in the queue is what was ever put
      in, in order. */
  lemma {:induction false} RunConserves(k: Known, queue: seq<Bytes>, requests: seq<Bytes>)
    requires KnownWell(k) && Healthy(queue)
    ensures Healthy(QueueAfter(k, queue, requests))
    ensures Flatten(queue) + AddedBy(k, queue, requests)
            == DeliveredOf(k, queue, requests) + Flatten(QueueAfter(k, queue, requests))
    decreases |requests|
  {
    if requests == [] {
      assert Flatten(queue) + [] == [] + Flatten(queue);
    } else {
      hide Executed, Flatten, Healthy, KnownWell;
      var (r, queue') := Executed(k, queue, requests[0]);
      StepConserves(k, queue, requests[0]);
      RunConserves(k, queue', requests[1..]);
      if !AsksMore(requests[0]) {
        FlattenJoins(queue, queue'[|queue|..]);
        assert queue + queue'[|queue|..] == queue';
        assert [] + Flatten(queue') == Flatten(queue');
      } else {
        assert Flatten(queue) + [] == Flatten(queue);
        assert r.Raised? ==> [] + Flatten(queue') == Flatten(queue);
      }
      var rest := requests[1..];
      Regroup(Flatten(queue), if !AsksMore(requests[0]) then Flatten(queue'[|queue|..]) else [],
              if AsksMore(requests[0]) && r.Answer? then r.bytes[2..] else [], Flatten(queue'),
              AddedBy(k, queue', rest), DeliveredOf(k, queue', rest), Flatten(QueueAfter(k, queue', rest)));
    }
  }

  lemma Regroup(queued: Bytes, put: Bytes, got: Bytes, left: Bytes, added: Bytes, delivered: Bytes, end: Bytes)
    requires queued + put == got + left && left + added == delivered + end && (put == [] || got == [])
    ensures queued + (put + added) == (got + delivered) + end
  {
    assert queued + (put + added) == queued + put + added;
    assert got + left + added == got + (left + added);
    assert got + (delivered + end) == got + delivered + end;
  }

  // --- draining ---

  // GET_MORE_ELEMENTS until the queue is empty.
  function Drain(queue: seq<Bytes>): Option<Bytes>
    decreases |queue|
  {
    if queue == [] then Some([])
    else
      var (r, queue') := GetMoreElements(queue, [0xA0]);
      if r.Raised? || |queue'| >= |queue| || |r.bytes| < 2 then None
      else match Drain(queue') case None => None case Some(rest) => Some(r.bytes[2..] + rest)
  }

  lemma {:induction false} DrainGivesAll(queue: seq<Bytes>)
    requires Healthy(queue) && Uniform(queue)
    ensures Drain(queue) == Some(Flatten(queue))
    decreases |queue|
  {
    if queue != [] {
      MoreFits(queue);
      hide GetMoreElements, Healthy, Uniform, Flatten;
      DrainGivesAll(GetMoreElements(queue, [0xA0]).1);
    }
  }

  lemma PreimageAnswered(k: Known, hash: Bytes, preimage: Bytes, head: Bytes)
    requires |hash| == 32 && hash in k.preimages && k.preimages[hash] == preimage
             && WriteVarint(|preimage|) == Some(head)
    ensures |head| <= 9
    ensures var size := Min(254 - |head|, |preimage|);
            Executed(k, [], [0x40, 0] + hash) == (Answer(head + ([size] + preimage[..size])), Singles(preimage[size..]))
  {
    var request: Bytes := [0x40, 0] + hash;
    assert request[2..] == hash;
    HeadLength(|preimage|);
    hide WriteVarint, Singles;
    var size := Min(254 - |head|, |preimage|);
    assert head + [size] + preimage[..size] == head + ([size] + preimage[..size]);
    assert [] + Singles(preimage[size..]) == Singles(preimage[size..]);
  }

  /** A known preimage asked for with an empty queue arrives whole: its length, its front, and what is
      drained afterwards. */
  lemma PreimageDelivered(k: Known, hash: Bytes)
    requires |hash| == 32 && hash in k.preimages && |k.preimages[hash]| < TWO_64
    ensures var preimage := k.preimages[hash];
            var (r, queue) := Executed(k, [], [0x40, 0] + hash);
            && r.Answer? && ReadVarint(r.bytes).Some?
            && var (n, rest) := ReadVarint(r.bytes).value;
               n == |preimage| && rest != [] && rest[0] as int == |rest| - 1
               && Drain(queue).Some? && rest[1..] + Drain(queue).value == preimage
  {
    hide Executed, WriteVarint, ReadVarint, Drain, Flatten;
    var preimage := k.preimages[hash];
    VarintReads(|preimage|, []);
    var head := WriteVarint(|preimage|).value;
    PreimageAnswered(k, hash, preimage, head);
    var size := Min(254 - |head|, |preimage|);
    var front, back := preimage[..size], preimage[size..];
    VarintReads(|preimage|, [size] + front);
    DrainGivesAll(Singles(back));
    SinglesFlatten(back);
    assert ([size] + front)[1..] == front && front + back == preimage;
  }

  /** A proof asked for with an empty queue arrives whole, for every list of fewer than 2^64 hashes. */
  lemma ProofDelivered(k: Known, request: Bytes, root: Bytes, index: nat)
    requires KnownWell(k) && root in k.trees && index < |k.trees[root]| < TWO_64
    requires request != [] && request[0] == 0x41 && ProofRequest(request) == Some((root, |k.trees[root]|, index))
    ensures var leaves := k.trees[root];
            var proof := Path(k.sha, index, leaves);
            var (r, queue) := Executed(k, [], request);
            && r.Answer? && |r.bytes| >= 34 && r.bytes[..32] == leaves[index]
            && r.bytes[32] as int == |proof| && r.bytes[33] as int * 32 == |r.bytes[34..]|
            && Drain(queue).Some? && r.bytes[34..] + Drain(queue).value == Flatten(proof)
  {
    hide Executed, KnownWell, Path, Drain, Flatten;
    var leaves := k.trees[root];
    var proof := Path(k.sha, index, leaves);
    ProofAnswered(k, request, root, index);
    var n := Min(6, |proof|);
    var front, left := proof[..n], proof[n..];
    FlattenLength(front, 32);
    FlattenJoins(front, left);
    assert front + left == proof;
    DrainGivesAll(left);
    ProofParts(leaves[index], |proof|, n, Flatten(front));
  }

  lemma ProofAnswered(k: Known, request: Bytes, root: Bytes, index: nat)
    requires KnownWell(k) && root in k.trees && index < |k.trees[root]| < TWO_64
    requires request != [] && request[0] == 0x41 && ProofRequest(request) == Some((root, |k.trees[root]|, index))
    ensures var leaves := k.trees[root];
            var proof := Path(k.sha, index, leaves);
            && |leaves[index]| == 32 && AllOf(proof, 32) && |proof| <= 64
            && Executed(k, [], request)
               == (Answer(SplitProof(leaves[index], proof).0), SplitProof(leaves[index], proof).1)
  {
    hide ProofRequest, Path, Flatten, GetPreimage, GetMoreElements, GetMerkleLeafIndex;
    PathOfDigests(k.sha, index, k.trees[root]);
    ShortProof(k.sha, index, k.trees[root]);
    var left := SplitProof(k.trees[root][index], Path(k.sha, index, k.trees[root])).1;
    assert [] + left == left;
  }

  // Where leaf, counts and front of a proof lie in the response.
  lemma ProofParts(leaf: Bytes, p: byte, n: byte, front: Bytes)
    requires |leaf| == 32
    ensures var b := leaf + [p] + [n] + front; b[..32] == leaf && b[32] == p && b[33] == n && b[34..] == front
  {
  }

  lemma ShortProof(sha: Hash, index: nat, leaves: seq<Bytes>)
    requires index < |leaves| < TWO_64
    ensures |Path(sha, index, leaves)| <= 64
  {
    ByteWidths();
    PowOfTwo();
    PathWithinDepth(sha, index, leaves, 64);
  }

  lemma PowOfTwo()
    ensures Pow(2, 64) == TWO_64
  {
    assert Pow(2, 0) == 1;
    assert Pow(2, 1) == 2;
    assert Pow(2, 2) == 4;
    PowAdd(2, 2, 2);
    PowAdd(2, 4, 4);
    PowAdd(2, 8, 8);
    PowAdd(2, 16, 16);
    PowAdd(2, 32, 32);
  }

  // --- elements of different lengths ---

  // A request for a known preimage that one message cannot hold.
  predicate AsksLongPreimage(k: Known, request: Bytes) {
    request != [] && request[0] == 0x40
    && match PreimageRequest(request)
       case None => false
       case Some(hash) => hash in k.preimages && 253 <= |k.preimages[hash]| < TWO_64
  }

  /** A uniform queue stays uniform but in one case, and then GET_MORE_ELEMENTS refuses it: a preimage of
      253 bytes or more is asked for while hashes of a proof are still queued. Nothing in GET_PREIMAGE
      looks at the queue. */
  lemma MixedExactly(k: Known, queue: seq<Bytes>, request: Bytes)
    requires KnownWell(k) && Healthy(queue) && Uniform(queue)
    ensures !Uniform(Executed(k, queue, request).1) <==>
            AsksLongPreimage(k, request) && queue != [] && |queue[0]| == 32
  {
    hide GetPreimage, GetMerkleLeafProof, GetMerkleLeafIndex, KnownWell;
    if request != [] {
      if request[0] == 0x40 {
        PreimageAdds(k, queue, request);
        PreimageLeaves(k, queue, request);
        MixedBy(queue, GetPreimage(k, queue, request).1);
      } else if request[0] == 0x41 {
        ProofAdds(k, queue, request);
      }
    }
  }

  // Bytes are left for later exactly from 253 on.
  lemma PreimageLeaves(k: Known, queue: seq<Bytes>, request: Bytes)
    requires request != [] && request[0] == 0x40
    ensures |GetPreimage(k, queue, request).1| > |queue| <==> AsksLongPreimage(k, request)
  {
    var asked := PreimageRequest(request);
    if asked.Some? && asked.value in k.preimages { HeadLength(|k.preimages[asked.value]|); }
    hide WriteVarint;
  }

  lemma HeadLength(n: nat)
    ensures match WriteVarint(n)
            case None => n >= TWO_64
            case Some(head) => n < TWO_64 && |head| == if n <= 252 then 1 else if n <= 0xFFFF then 3
              else if n < TWO_32 then 5 else 9
  {
  }

  /** And such a queue is reached from an empty one by two requests: for the proof of the first of more
      than 64 leaves, and then for a long preimage. */
  lemma MixedReached(k: Known, request: Bytes, root: Bytes, second: Bytes)
    requires KnownWell(k) && root in k.trees && 64 < |k.trees[root]| < TWO_64
    requires request != [] && request[0] == 0x41 && ProofRequest(request) == Some((root, |k.trees[root]|, 0))
    requires AsksLongPreimage(k, second)
    ensures !Uniform(QueueAfter(k, [], [request, second]))
  {
    var queue := Executed(k, [], request).1;
    ProofQueued(k, request, root);
    MixedExactly(k, queue, second);
    hide Executed;
    AfterTwo(k, [], request, second);
  }

  lemma AfterTwo(k: Known, queue: seq<Bytes>, first: Bytes, second: Bytes)
    ensures QueueAfter(k, queue, [first, second]) == Executed(k, Executed(k, queue, first).1, second).1
  {
    hide Executed;
    var next := Executed(k, queue, first).1;
    assert [first, second][1..] == [second] && [second][1..] == [];
    assert QueueAfter(k, next, [second]) == QueueAfter(k, Executed(k, next, second).1, []);
  }

  // What is left of the proof of the first of more than 64 leaves.
  lemma ProofQueued(k: Known, request: Bytes, root: Bytes)
    requires KnownWell(k) && root in k.trees && 64 < |k.trees[root]| < TWO_64
    requires request != [] && request[0] == 0x41 && ProofRequest(request) == Some((root, |k.trees[root]|, 0))
    ensures var queue := Executed(k, [], request).1;
            Healthy(queue) && Uniform(queue) && queue != [] && |queue[0]| == 32
  {
    hide ProofRequest, Path, Flatten, GetPreimage, GetMoreElements, GetMerkleLeafIndex;
    var leaves := k.trees[root];
    var proof := Path(k.sha, 0, leaves);
    PathOfDigests(k.sha, 0, leaves);
    ShortProof(k.sha, 0, leaves);
    SixtyFour();
    PathLong(k.sha, leaves, 6);
    assert Executed(k, [], request).1 == [] + proof[6..] == proof[6..];
  }

  lemma SixtyFour()
    ensures Pow(2, 6) == 64
  {
    assert Pow(2, 3) == 8;
    PowAdd(2, 3, 3);
  }

  // The path of the first leaf is as long as the tree is deep.
  lemma {:induction false} PathLong(sha: Hash, d: seq<Bytes>, e: nat)
    requires |d| > Pow(2, e)
    ensures |Path(sha, 0, d)| > e
  {
    PowPositive(2, e);
    if e > 0 { PathLong(sha, d[..Split(|d|)], e - 1); }
  }

  lemma MixedBy(queue: seq<Bytes>, more: seq<Bytes>)
    requires Healthy(queue) && Uniform(queue) && queue <= more && forall i :: |queue| <= i < |more| ==> |more[i]| == 1
    ensures !Uniform(more) <==> queue != [] && |queue[0]| == 32 && |more| > |queue|
  {
    assert forall i :: 0 <= i < |queue| ==> more[i] == queue[i];
    assert |more| > |queue| ==> |more[|queue|]| == 1;
  }

  lemma PreimageAdds(k: Known, queue: seq<Bytes>, request: Bytes)
    ensures var queue' := GetPreimage(k, queue, request).1;
            queue <= queue' && forall i :: |queue| <= i < |queue'| ==> |queue'[i]| == 1
  {
    hide WriteVarint, Singles;
  }

  lemma ProofAdds(k: Known, queue: seq<Bytes>, request: Bytes)
    requires KnownWell(k)
    ensures var queue' := GetMerkleLeafProof(k, queue, request).1;
            queue' == queue || (queue == [] && AllOf(queue', 32))
  {
    hide ProofRequest, Path, Flatten;
    var parsed := ProofRequest(request);
    if parsed.Some? {
      var (root, size, index) := parsed.value;
      if root in k.trees && index < size && |k.trees[root]| == size { PathOfDigests(k.sha, index, k.trees[root]); }
    }
  }

  // Requests that look at the queue.
  predicate AsksQueue(request: Bytes) { request != [] && (request[0] == 0x41 || request[0] == 0xA0) }

  lemma MixedStays(k: Known, queue: seq<Bytes>, request: Bytes)
    requires !Uniform(queue)
    ensures var (r, queue') := Executed(k, queue, request); !Uniform(queue') && (AsksQueue(request) ==> r.Raised?)
  {
    hide GetPreimage, GetMerkleLeafIndex, ProofRequest, Path;
    if request != [] && request[0] == 0x40 {
      PreimageAdds(k, queue, request);
      StillMixed(queue, GetPreimage(k, queue, request).1);
    }
  }

  /** A mixed queue never recovers: whatever is asked, and however often, it stays mixed, nothing is delivered
      from it, and the next request for a proof or for more elements raises. */
  lemma {:induction false} MixedForever(k: Known, queue: seq<Bytes>, requests: seq<Bytes>)
    requires !Uniform(queue)
    ensures var end := QueueAfter(k, queue, requests);
            !Uniform(end) && forall next: Bytes :: AsksQueue(next) ==> Executed(k, end, next).0.Raised?
    ensures DeliveredOf(k, queue, requests) == []
    decreases |requests|
  {
    hide Executed, Uniform;
    if requests == [] {
      forall next: Bytes | AsksQueue(next)
        ensures Executed(k, queue, next).0.Raised?
      {
        MixedStays(k, queue, next);
      }
    } else {
      MixedStays(k, queue, requests[0]);
      MixedForever(k, Executed(k, queue, requests[0]).1, requests[1..]);
    }
  }

  lemma StillMixed(queue: seq<Bytes>, more: seq<Bytes>)
    requires !Uniform(queue) && queue <= more
    ensures !Uniform(more)
  {
    var i :| 0 <= i < |queue| && |queue[i]| != |queue[0]|;
    assert more[i] == queue[i] && more[0] == queue[0];
  }

  // --- byte by byte ---

  /** Compact sizes: one byte up to 252, else a byte FD, FE or FF and two, four or eight bytes, the lowest first. */
  lemma VarintMeans(n: nat)
    ensures if n <= 252 then WriteVarint(n) == Some([n])
            else if n <= 0xFFFF then WriteVarint(n) == Some([0xFD, n % 256, n / 256])
            else if n >= TWO_64 then WriteVarint(n) == None
            else exists b: Bytes ::
                   && WriteVarint(n) == Some([if n < TWO_32 then 0xFE else 0xFF] + b)
                   && |b| == (if n < TWO_32 then 4 else 8) && LittleEndian(b) == n
  {
    hide ToLittle, LittleEndian;
    if n <= 0xFFFF {
      TwoBytes(n);
      assert [0xFD] + [n % 256, n / 256] == [0xFD, n % 256, n / 256];
    }
    ByteWidths();
    if n < TWO_32 { LittleRoundTrip(n, 4); }
    if n < TWO_64 { LittleRoundTrip(n, 8); }
  }

  lemma TwoBytes(n: nat)
    requires n < 0x10000
    ensures ToLittle(n, 2) == [n % 256, n / 256]
  {
    assert ToLittle(n, 2) == [n % 256] + ToLittle(n / 256, 1);
    assert ToLittle(n / 256, 1) == [n / 256] + ToLittle(0, 0);
  }

  /** GET_MERKLE_LEAF_INDEX answers a 1 and the first index of the leaf, or two zeros. */
  lemma LeafIndexAnswered(k: Known, root: Bytes, leaf: Bytes)
    requires |root| == 32 == |leaf| && root in k.trees && |k.trees[root]| < TWO_64
    ensures var leaves := k.trees[root];
            var (r, queue) := Executed(k, [], [0x42] + root + leaf);
            && queue == [] && r.Answer?
            && (leaf !in leaves ==> r.bytes == [0, 0])
            && (leaf in leaves ==> |r.bytes| >= 2 && r.bytes[0] == 1 && exists i: nat ::
                  i < |leaves| && leaves[i] == leaf && leaf !in leaves[..i]
                    && ReadVarint(r.bytes[1..]) == Some((i, [])))
  {
    hide WriteVarint, ReadVarint;
    var request := [0x42] + root + leaf;
    assert request[1..33] == root && request[33..] == leaf;
    var found := FirstAt(k.trees[root], leaf);
    if found.Some? {
      VarintReads(found.value, []);
      var v := WriteVarint(found.value).value;
      HeadLength(found.value);
      assert v + [] == v && ([1] + v)[1..] == v;
    }
  }

  /** A request for a proof carries the root, the number of leaves and the index. */
  lemma ProofAsked(root: Bytes, size: nat, index: nat)
    requires |root| == 32 && size < TWO_64 && index < TWO_64
    ensures WriteVarint(size).Some? && WriteVarint(index).Some?
    ensures ProofRequest([0x41] + root + WriteVarint(size).value + WriteVarint(index).value)
            == Some((root, size, index))
  {
    hide WriteVarint, ReadVarint;
    VarintReads(size, []);
    VarintReads(index, []);
    var a, b := WriteVarint(size).value, WriteVarint(index).value;
    VarintReads(size, b);
    var request := [0x41] + root + a + b;
    assert request[1..33] == root && request[33..] == a + b && b + [] == b;
  }

  /** GET_MORE_ELEMENTS answers how many elements it delivers and of which length, and these: as many as 253
      bytes hold. */
  lemma MoreAnswered(queue: seq<Bytes>)
    requires Healthy(queue) && Uniform(queue) && queue != []
    ensures var n := |queue[0]|;
            var t := Min(|queue|, if n == 1 then 253 else 7);
            (n == 1 || n == 32) && GetMoreElements(queue, [0xA0]) == (Answer([t, n] + Flatten(queue[..t])), queue[t..])
  {
    UniformLengths(queue);
    MoreAnswers(queue, |queue[0]|);
  }
}
