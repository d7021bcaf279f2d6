/** Merkle trees of the Bitcoin helper client
    (test/python/apps/bitcoin_client/ledger_bitcoin/merkle.py). */
module Merkle {
  import opened Common

  // SHA-256 is a parameter: any function to 32-byte strings.
  type Digest = b: Bytes | |b| == 32 witness Zeros(32)
  type Hash = Bytes -> Digest

  // --- powers of two ---

  // `a & b` on non-negative integers.
  function BitAnd(a: nat, b: nat): nat {
    if a == 0 || b == 0 then 0 else a % 2 * (b % 2) + 2 * BitAnd(a / 2, b / 2)
  }

  ghost predicate IsPower(n: nat) { exists e: nat :: n == Pow(2, e) }

  lemma {:induction false} AndSelf(n: nat)
    ensures BitAnd(n, n) == n
  {
    if n > 0 { AndSelf(n / 2); }
  }

  lemma DoublePower(n: nat)
    ensures IsPower(n) ==> IsPower(2 * n)
    ensures n > 0 && IsPower(2 * n) ==> IsPower(n)
  {
    if IsPower(n) {
      var e: nat :| n == Pow(2, e);
      assert Pow(2, e + 1) == 2 * n;
    }
    if n > 0 && IsPower(2 * n) {
      var e: nat :| 2 * n == Pow(2, e);
      assert e > 0 && Pow(2, e) == 2 * Pow(2, e - 1);
    }
  }

  lemma OddPower(n: nat)
    requires n % 2 == 1
    ensures IsPower(n) <==> n == 1
  {
    if IsPower(n) {
      var e: nat :| n == Pow(2, e);
      PowerParity(e);
    }
    PowerParity(0);
  }

  lemma PowerParity(e: nat)
    ensures if e == 0 then Pow(2, e) == 1 else Pow(2, e) == 2 * Pow(2, e - 1)
  {
  }

  /** is_power_of_2: the bit trick is right for every positive integer. */
  lemma {:induction false} BitTrick(n: nat)
    requires n >= 1
    ensures BitAnd(n, n - 1) == 0 <==> IsPower(n)
  {
    if n % 2 == 1 {
      OddPower(n);
      AndSelf(n / 2);
    } else {
      BitTrick(n / 2);
      DoublePower(n / 2);
    }
  }

  /** The size of the left subtree of n leaves: the largest power of two below n. */
  function Split(n: nat): (k: nat)
    requires n > 1
    ensures 0 < k < n <= 2 * k
  {
    GrowTo(1, n)
  }

  function GrowTo(t: nat, n: nat): (k: nat)
    requires 0 < t < n
    ensures t <= k < n <= 2 * k
    decreases n - t
  {
    if 2 * t < n then GrowTo(2 * t, n) else t
  }

  lemma {:induction false} GrowToPower(t: nat, n: nat)
    requires 0 < t < n && IsPower(t)
    ensures IsPower(GrowTo(t, n))
    decreases n - t
  {
    if 2 * t < n {
      DoublePower(t);
      GrowToPower(2 * t, n);
    }
  }

  lemma SplitPower(n: nat)
    requires n > 1
    ensures IsPower(Split(n))
  {
    assert IsPower(1) by { assert 1 == Pow(2, 0); }
    GrowToPower(1, n);
  }

  // The split of n is the one power of two that n is above, and not above twice.
  lemma SplitIs(k: nat, n: nat)
    requires n > 1 && IsPower(k) && k < n <= 2 * k
    ensures Split(n) == k
  {
    SplitPower(n);
    PowerBetween(k, Split(n), n);
  }

  // Two powers of two within a factor of two of n are the same.
  lemma {:induction false} PowerBetween(a: nat, b: nat, n: nat)
    requires IsPower(a) && IsPower(b) && a < n <= 2 * a && b < n <= 2 * b
    ensures a == b
  {
    var e: nat, f: nat :| a == Pow(2, e) && b == Pow(2, f);
    if e < f { PowerStep(e, f); } else if f < e { PowerStep(f, e); }
  }

  lemma {:induction false} PowerStep(e: nat, f: nat)
    requires e < f
    ensures 2 * Pow(2, e) <= Pow(2, f)
  {
    if e + 1 < f { PowerStep(e, f - 1); }
    PowPositive(2, e);
  }

  method FloorLg(n: nat) returns (r: nat)
    requires n > 0
    ensures Pow(2, r) <= n < 2 * Pow(2, r)
  {
    r := 0;
    var t := 1;
    while 2 * t <= n
      invariant 0 < t <= n && t == Pow(2, r)
      decreases n - t
    {
      t := 2 * t;
      r := r + 1;
    }
  }

  // r is the logarithm of n to base 2, rounded up.
  ghost predicate CeilingOfLog(r: nat, n: nat) { n <= Pow(2, r) && (r > 0 ==> Pow(2, r - 1) < n) }

  method CeilLg(n: nat) returns (r: nat)
    requires n > 0
    ensures CeilingOfLog(r, n)
  {
    r := 0;
    var t := 1;
    while t < n
      invariant t > 0 && t == Pow(2, r) && (r > 0 ==> Pow(2, r - 1) < n)
      decreases n - t
    {
      t := 2 * t;
      r := r + 1;
    }
  }

  method LargestPowerOf2LessThan(n: nat) returns (k: nat)
    requires n > 1
    ensures k == Split(n) && IsPower(k)
  {
    BitTrick(n);
    assert Pow(2, 0) == 1;
    GrowToPower(1, n);
    if BitAnd(n, n - 1) == 0 {
      k := n / 2;
      assert n % 2 == 0 by {
        if n % 2 == 1 { OddPower(n); }
      }
      DoublePower(k);
    } else {
      var e := FloorLg(n);
      k := Pow(2, e);
      assert k != n;
    }
    PowerBetween(k, Split(n), n);
  }

  // --- the recursive hash and inclusion proofs (sections 2.1 and 2.1.1 of RFC 6962) ---

  function Combine(sha: Hash, l: Bytes, r: Bytes): Bytes { sha([1] + l + r) }

  lemma CombineMeans(sha: Hash, l: Bytes, r: Bytes)
    ensures Combine(sha, l, r) == sha([1] + l + r)
  {
  }

  function Root(sha: Hash, d: seq<Bytes>): Bytes
    requires d != []
  {
    if |d| == 1 then d[0]
    else var k := Split(|d|); Combine(sha, Root(sha, d[..k]), Root(sha, d[k..]))
  }

  /** The Merkle tree hash of section 2.1 of RFC 6962, over hashes as leaves: the hash of the byte 1 and the
      roots of the two parts, of which the left one has the largest power of two below the number of leaves. */
  ghost predicate IsRoot(sha: Hash, d: seq<Bytes>, x: Bytes)
    decreases |d|
  {
    if |d| <= 1 then d == [x]
    else exists k: nat, l: Bytes, r: Bytes ::
      && IsPower(k) && 0 < k < |d| <= 2 * k
      && IsRoot(sha, d[..k], l) && IsRoot(sha, d[k..], r) && x == sha([1] + l + r)
  }

  /** Root computes it. */
  lemma {:induction false} RootMeans(sha: Hash, d: seq<Bytes>)
    requires d != []
    ensures IsRoot(sha, d, Root(sha, d))
    decreases |d|
  {
    if |d| > 1 {
      var k := Split(|d|);
      SplitPower(|d|);
      RootMeans(sha, d[..k]);
      RootMeans(sha, d[k..]);
    }
  }

  /** And nothing else is one. */
  lemma {:induction false} RootsAgree(sha: Hash, d: seq<Bytes>, x: Bytes)
    requires IsRoot(sha, d, x)
    ensures d != [] && x == Root(sha, d)
    decreases |d|
  {
    if |d| > 1 {
      var k: nat, l: Bytes, r: Bytes :| IsPower(k) && 0 < k < |d| <= 2 * k
        && IsRoot(sha, d[..k], l) && IsRoot(sha, d[k..], r) && x == sha([1] + l + r);
      SplitIs(k, |d|);
      RootsAgree(sha, d[..k], l);
      RootsAgree(sha, d[k..], r);
    }
  }

  function Path(sha: Hash, m: nat, d: seq<Bytes>): seq<Bytes>
    requires m < |d|
  {
    if |d| == 1 then []
    else var k := Split(|d|);
         if m < k then Path(sha, m, d[..k]) + [Root(sha, d[k..])]
         else Path(sha, m - k, d[k..]) + [Root(sha, d[..k])]
  }

  // What a verifier computes from a leaf and a proof; None if the proof has the wrong length.
  function Climb(sha: Hash, m: nat, n: nat, leaf: Bytes, path: seq<Bytes>): Option<Bytes>
    requires m < n
  {
    if n == 1 then (if path == [] then Some(leaf) else None)
    else if path == [] then None
    else
      var k, last := Split(n), path[|path| - 1];
      var front := path[..|path| - 1];
      if m < k then
        (match Climb(sha, m, k, leaf, front) case None => None case Some(h) => Some(Combine(sha, h, last)))
      else
        (match Climb(sha, m - k, n - k, leaf, front) case None => None case Some(h) => Some(Combine(sha, last, h)))
  }

  /** One step of the fold: with the power of two that splits the leaves, the last sibling of the proof is
      hashed behind what the left part gives, or in front of what the right part gives. */
  lemma ClimbMeans(sha: Hash, m: nat, n: nat, k: nat, leaf: Bytes, front: seq<Bytes>, sibling: Bytes)
    requires m < n && IsPower(k) && 0 < k < n <= 2 * k
    ensures Climb(sha, m, n, leaf, front + [sibling]) ==
            if m < k then
              match Climb(sha, m, k, leaf, front) case None => None case Some(h) => Some(sha([1] + h + sibling))
            else
              match Climb(sha, m - k, n - k, leaf, front) case None => None case Some(h) => Some(sha([1] + sibling + h))
    ensures Climb(sha, 0, 1, leaf, []) == Some(leaf) && Climb(sha, m, n, leaf, []) == None
  {
    SplitIs(k, n);
    assert (front + [sibling])[..|front|] == front;
  }

  /** A proof folded with its leaf gives the root. */
  lemma {:induction false} PathLeadsToRoot(sha: Hash, m: nat, d: seq<Bytes>)
    requires m < |d|
    ensures Climb(sha, m, |d|, d[m], Path(sha, m, d)) == Some(Root(sha, d))
  {
    if |d| > 1 {
      var k := Split(|d|);
      if m < k {
        PathLeadsToRoot(sha, m, d[..k]);
      } else {
        PathLeadsToRoot(sha, m - k, d[k..]);
      }
      var p := Path(sha, m, d);
      assert p[..|p| - 1] == if m < k then Path(sha, m, d[..k]) else Path(sha, m - k, d[k..]);
    }
  }

  ghost predicate AllDigests(d: seq<Bytes>) { forall i :: 0 <= i < |d| ==> |d[i]| == 32 }

  ghost predicate Collision(sha: Hash) { exists a: Bytes, b: Bytes :: a != b && sha(a) == sha(b) }

  lemma RootIsDigest(sha: Hash, d: seq<Bytes>)
    requires d != [] && AllDigests(d)
    ensures |Root(sha, d)| == 32
  {
  }

  lemma CombineSplits(sha: Hash, l: Bytes, r: Bytes, l': Bytes, r': Bytes)
    requires |l| == |l'| == 32 && Combine(sha, l, r) == Combine(sha, l', r') && !Collision(sha)
    ensures l == l' && r == r'
  {
    var a, b := [1] + l + r, [1] + l' + r';
    assert a == b;
    assert l == a[1..33] && l' == b[1..33] && r == a[33..] && r' == b[33..];
  }

  /** Proofs are binding: a leaf and proof that lead to the root are the tree's own, unless they
      exhibit a collision of the hash function. */
  lemma {:induction false} ProofsAreBinding(sha: Hash, m: nat, d: seq<Bytes>, leaf: Bytes, path: seq<Bytes>)
    requires m < |d| && AllDigests(d) && |leaf| == 32 && AllDigests(path)
    requires Climb(sha, m, |d|, leaf, path) == Some(Root(sha, d))
    ensures (leaf == d[m] && path == Path(sha, m, d)) || Collision(sha)
  {
    if |d| > 1 && !Collision(sha) {
      hide Collision, Combine, Split, Climb, Root, Path, AllDigests;
      var k := Split(|d|);
      BindsDown(sha, m, d, leaf, path);
      var front := path[..|path| - 1];
      if m < k {
        ProofsAreBinding(sha, m, d[..k], leaf, front);
      } else {
        ProofsAreBinding(sha, m - k, d[k..], leaf, front);
      }
    } else if |d| == 1 {
      OnlyProof(sha, m, d, leaf, path);
    }
  }

  // Without a collision the last of a proof is the other half's root, and the rest leads to its own.
  lemma BindsDown(sha: Hash, m: nat, d: seq<Bytes>, leaf: Bytes, path: seq<Bytes>)
    requires m < |d| && |d| > 1 && AllDigests(d) && |leaf| == 32 && AllDigests(path) && !Collision(sha)
    requires Climb(sha, m, |d|, leaf, path) == Some(Root(sha, d))
    ensures path != [] && AllDigests(path[..|path| - 1]) && AllDigests(d[..Split(|d|)]) && AllDigests(d[Split(|d|)..])
    ensures var k, last := Split(|d|), path[|path| - 1];
            var front := path[..|path| - 1];
            path == front + [last]
            && (if m < k then
                  Climb(sha, m, k, leaf, front) == Some(Root(sha, d[..k]))
                    && Path(sha, m, d) == Path(sha, m, d[..k]) + [last]
                else
                  Climb(sha, m - k, |d| - k, leaf, front) == Some(Root(sha, d[k..]))
                  && Path(sha, m, d) == Path(sha, m - k, d[k..]) + [last])
  {
    hide Collision, Combine, Split;
    OneDown(sha, m, d, leaf, path);
    hide Climb, Root, Path;
    var k := Split(|d|);
    var front, last := path[..|path| - 1], path[|path| - 1];
    RootIsDigest(sha, d[..k]);
    RootIsDigest(sha, d[k..]);
    if m < k {
      ClimbIsDigest(sha, m, k, leaf, front);
      CombineSplits(sha, Climb(sha, m, k, leaf, front).value, last, Root(sha, d[..k]), Root(sha, d[k..]));
    } else {
      ClimbIsDigest(sha, m - k, |d| - k, leaf, front);
      CombineSplits(sha, last, Climb(sha, m - k, |d| - k, leaf, front).value, Root(sha, d[..k]), Root(sha, d[k..]));
    }
  }

  lemma OnlyProof(sha: Hash, m: nat, d: seq<Bytes>, leaf: Bytes, path: seq<Bytes>)
    requires m < |d| == 1 && Climb(sha, m, 1, leaf, path) == Some(Root(sha, d))
    ensures leaf == d[m] && path == Path(sha, m, d)
  {
  }

  // A proof that leads to the root, one level down.
  lemma OneDown(sha: Hash, m: nat, d: seq<Bytes>, leaf: Bytes, path: seq<Bytes>)
    requires m < |d| && |d| > 1 && Climb(sha, m, |d|, leaf, path) == Some(Root(sha, d))
    ensures path != []
    ensures var k, last := Split(|d|), path[|path| - 1];
            var front := path[..|path| - 1];
            if m < k then
              && Climb(sha, m, k, leaf, front).Some? && Path(sha, m, d) == Path(sha, m, d[..k]) + [Root(sha, d[k..])]
              && Combine(sha, Climb(sha, m, k, leaf, front).value, last)
                 == Combine(sha, Root(sha, d[..k]), Root(sha, d[k..]))
            else
              && Climb(sha, m - k, |d| - k, leaf, front).Some?
                 && Path(sha, m, d) == Path(sha, m - k, d[k..]) + [Root(sha, d[..k])]
              && Combine(sha, last, Climb(sha, m - k, |d| - k, leaf, front).value)
                 == Combine(sha, Root(sha, d[..k]), Root(sha, d[k..]))
  {
    hide Combine, Split;
  }

  lemma ClimbIsDigest(sha: Hash, m: nat, n: nat, leaf: Bytes, path: seq<Bytes>)
    requires m < n && |leaf| == 32 && Climb(sha, m, n, leaf, path).Some?
    ensures |Climb(sha, m, n, leaf, path).value| == 32
  {
  }

  /** A proof is no longer than the depth of the tree. */
  lemma {:induction false} PathWithinDepth(sha: Hash, m: nat, d: seq<Bytes>, depth: nat)
    requires m < |d| <= Pow(2, depth)
    ensures |Path(sha, m, d)| <= depth
  {
    if |d| > 1 {
      var k := Split(|d|);
      assert depth > 0 && Pow(2, depth) == 2 * Pow(2, depth - 1);
      assert k <= Pow(2, depth - 1) by {
        assert Pow(2, 0) == 1;
        GrowToPower(1, |d|);
        var e: nat :| k == Pow(2, e);
        if e >= depth { PowerAtLeast(depth, e); }
        PowerAtLeast(e, depth - 1);
      }
      if m < k {
        PathWithinDepth(sha, m, d[..k], depth - 1);
      } else {
        PathWithinDepth(sha, m - k, d[k..], depth - 1);
      }
    }
  }

  lemma PowerAtLeast(e: nat, f: nat)
    ensures e <= f ==> Pow(2, e) <= Pow(2, f)
  {
    if e < f {
      PowerStep(e, f);
    }
  }
}
