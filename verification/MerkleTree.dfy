/** The mutable Merkle tree with parent pointers
    (test/python/apps/bitcoin_client/ledger_bitcoin/merkle.py). */
module MerkleTrees {
  import opened Common
  import opened Merkle

  class Node {
    var left: Node?
    var right: Node?
    var parent: Node?
    var value: Bytes

    constructor (left: Node?, right: Node?, value: Bytes)
      ensures this.left == left && this.right == right && parent == null && this.value == value
    {
      this.left, this.right, parent, this.value := left, right, null, value;
    }
  }

  // A snapshot of a node, with the range of leaves it covers.
  datatype View = View(left: Node?, right: Node?, parent: Node?, value: Bytes, begin: nat, size: nat)

  type Views = map<Node, View>

  // The heap is as the snapshot says.
  ghost predicate Matches(v: Views)
    reads v.Keys
  {
    forall x :: x in v ==>
      x.left == v[x].left && x.right == v[x].right && x.parent == v[x].parent && x.value == v[x].value
  }

  // Structure of one node: it is a leaf of the list, or its children split its range and point back.
  ghost predicate Shaped(v: Views, leaves: seq<Node>, x: Node)
    requires x in v
  {
    var n := v[x];
    && n.size >= 1 && n.begin + n.size <= |leaves|
    && (n.size == 1 ==> x == leaves[n.begin])
    && (n.size > 1 ==>
        && n.left != null && n.right != null && n.left in v && n.right in v
        && v[n.left].begin == n.begin && v[n.left].size == Split(n.size) && v[n.left].parent == x
        && v[n.right].begin == n.begin + Split(n.size) && v[n.right].size == n.size - Split(n.size)
           && v[n.right].parent == x)
  }

  ghost predicate Linked(v: Views, x: Node)
    requires x in v
  {
    var p := v[x].parent;
    p != null && p in v && v[p].size > v[x].size && (v[p].left == x || v[p].right == x)
  }

  // The value of an inner node is the hash of its children's values.
  ghost predicate Hashed(v: Views, sha: Hash, x: Node)
    requires x in v
  {
    var n := v[x];
    n.size > 1 ==> n.left != null && n.right != null && n.left in v && n.right in v
                   && n.value == Combine(sha, v[n.left].value, v[n.right].value)
  }

  // v is the tree over leaves[b..b + n] with this root, hashes apart.
  ghost predicate TreeOf(v: Views, leaves: seq<Node>, root: Node, b: nat, n: nat) {
    && b + n <= |leaves| && root in v && v[root].begin == b && v[root].size == n && v[root].parent == null
    && AllShaped(v, leaves, b, n) && AllLinked(v, root) && HasLeaves(v, leaves, b, n)
  }

  ghost predicate AllShaped(v: Views, leaves: seq<Node>, b: nat, n: nat) {
    forall x :: x in v ==> Shaped(v, leaves, x) && b <= v[x].begin && v[x].begin + v[x].size <= b + n
  }

  ghost predicate AllLinked(v: Views, root: Node) { forall x :: x in v && x != root ==> Linked(v, x) }

  ghost predicate HasLeaves(v: Views, leaves: seq<Node>, b: nat, n: nat)
    requires b + n <= |leaves|
  {
    forall i :: b <= i < b + n ==> leaves[i] in v && v[leaves[i]].begin == i && v[leaves[i]].size == 1
  }

  ghost predicate AllHashed(v: Views, sha: Hash) { forall x :: x in v ==> Hashed(v, sha, x) }

  // --- building ---

  ghost function Joined(vl: Views, vr: Views, l: Node, r: Node, root: Node, value: Bytes): Views
    requires l in vl && r in vr
  {
    vl[l := vl[l].(parent := root)] + vr[r := vr[r].(parent := root)]
      + map[root := View(l, r, null, value, vl[l].begin, vl[l].size + vr[r].size)]
  }

  // The tree v1 with root `top` is found in v2 with nothing changed but the parent of top.
  ghost predicate Within(v1: Views, v2: Views, top: Node) {
    forall y :: y in v1 ==> y in v2 && v2[y] == if y == top then v1[y].(parent := v2[y].parent) else v1[y]
  }

  lemma Carried(v1: Views, v2: Views, leaves: seq<Node>, top: Node, x: Node)
    requires x in v1 && top in v1 && v1[top].parent == null && Within(v1, v2, top)
    ensures Shaped(v1, leaves, x) ==> Shaped(v2, leaves, x)
    ensures x != top && Linked(v1, x) ==> Linked(v2, x)
  {
  }

  lemma CarriedHash(v1: Views, v2: Views, sha: Hash, top: Node, x: Node)
    requires x in v1 && top in v1 && Within(v1, v2, top) && Hashed(v1, sha, x)
    ensures Hashed(v2, sha, x)
  {
  }

  lemma JoinedViews(vl: Views, vr: Views, l: Node, r: Node, root: Node, value: Bytes)
    requires l in vl && r in vr && vl.Keys !! vr.Keys && root !in vl && root !in vr
    ensures var v := Joined(vl, vr, l, r, root, value);
            && Within(vl, v, l) && Within(vr, v, r) && v[l].parent == root && v[r].parent == root
            && root in v && v[root] == View(l, r, null, value, vl[l].begin, vl[l].size + vr[r].size)
            && forall x :: x in v ==> x in vl || x in vr || x == root
  {
  }

  lemma JoinedTree(vl: Views, vr: Views, leaves: seq<Node>, l: Node, r: Node, root: Node, value: Bytes,
                   b: nat, k: nat, c: nat, m: nat, n: nat)
    requires n > 1 && k == Split(n) && n == k + m && c == b + k && TreeOf(vl, leaves, l, b, k)
             && TreeOf(vr, leaves, r, c, m)
    requires vl.Keys !! vr.Keys && root !in vl && root !in vr
    ensures TreeOf(Joined(vl, vr, l, r, root, value), leaves, root, b, n)
  {
    hide AllShaped, AllLinked, Shaped, Joined;
    var v := Joined(vl, vr, l, r, root, value);
    JoinedViews(vl, vr, l, r, root, value);
    JoinedShapes(vl, vr, v, leaves, l, r, root, b, k, c, m, n);
    JoinedLinks(vl, vr, v, leaves, l, r, root);
  }

  lemma JoinedShapes(vl: Views, vr: Views, v: Views, leaves: seq<Node>, l: Node, r: Node, root: Node,
                     b: nat, k: nat, c: nat, m: nat, n: nat)
    requires n > 1 && k == Split(n) && n == k + m && c == b + k && TreeOf(vl, leaves, l, b, k)
             && TreeOf(vr, leaves, r, c, m)
    requires Within(vl, v, l) && Within(vr, v, r) && v[l].parent == root && v[r].parent == root
    requires root in v && v[root].left == l && v[root].right == r && v[root].begin == b && v[root].size == n
    requires forall x :: x in v ==> x in vl || x in vr || x == root
    ensures AllShaped(v, leaves, b, n)
  {
    hide AllLinked, HasLeaves, Linked;
    assert Shaped(v, leaves, root);
    hide Shaped;
    forall x | x in v
      ensures Shaped(v, leaves, x) && b <= v[x].begin && v[x].begin + v[x].size <= b + n
    {
      if x in vl {
        Carried(vl, v, leaves, l, x);
      } else if x in vr {
        Carried(vr, v, leaves, r, x);
      }
    }
  }

  lemma JoinedLinks(vl: Views, vr: Views, v: Views, leaves: seq<Node>, l: Node, r: Node, root: Node)
    requires l in vl && r in vr && vl[l].parent == null && vr[r].parent == null && AllLinked(vl, l) && AllLinked(vr, r)
    requires Within(vl, v, l) && Within(vr, v, r) && v[l].parent == root && v[r].parent == root
    requires root in v && v[root].left == l && v[root].right == r && v[root].size > v[l].size
             && v[root].size > v[r].size
    requires forall x :: x in v ==> x in vl || x in vr || x == root
    ensures AllLinked(v, root)
  {
    LinkedTo(v, l, root);
    LinkedTo(v, r, root);
    hide Linked;
    forall x | x in v && x != root
      ensures Linked(v, x)
    {
      if x != l && x in vl {
        Carried(vl, v, leaves, l, x);
      } else if x != r && x in vr {
        Carried(vr, v, leaves, r, x);
      }
    }
  }

  lemma LinkedTo(v: Views, x: Node, p: Node)
    requires x in v && p in v && v[x].parent == p && v[p].size > v[x].size && (v[p].left == x || v[p].right == x)
    ensures Linked(v, x)
  {
  }

  lemma JoinedHashes(vl: Views, vr: Views, sha: Hash, l: Node, r: Node, root: Node)
    requires l in vl && r in vr && AllHashed(vl, sha) && AllHashed(vr, sha)
    requires vl.Keys !! vr.Keys && root !in vl && root !in vr
    ensures AllHashed(Joined(vl, vr, l, r, root, Combine(sha, vl[l].value, vr[r].value)), sha)
  {
    var v := Joined(vl, vr, l, r, root, Combine(sha, vl[l].value, vr[r].value));
    JoinedViews(vl, vr, l, r, root, Combine(sha, vl[l].value, vr[r].value));
    assert Hashed(v, sha, root);
    hide Hashed, Joined;
    forall x | x in v
      ensures Hashed(v, sha, x)
    {
      if x in vl {
        CarriedHash(vl, v, sha, l, x);
      } else if x in vr {
        CarriedHash(vr, v, sha, r, x);
      }
    }
  }

  ghost predicate Distinct(leaves: seq<Node>) { forall i, j :: 0 <= i < j < |leaves| ==> leaves[i] != leaves[j] }

  ghost predicate Single(x: Node, value: Bytes)
    reads x
  {
    x.left == null && x.right == null && x.parent == null && x.value == value
  }

  // The leaves of a range are unlinked objects of the set own and hold these values.
  ghost predicate Unlinked(leaves: seq<Node>, values: seq<Bytes>, b: nat, n: nat, own: set<Node>)
    reads own
  {
    && b + n <= |leaves| == |values|
    && forall i :: b <= i < b + n ==> leaves[i] in own && Single(leaves[i], values[i])
  }

  ghost predicate LeafValues(v: Views, leaves: seq<Node>, values: seq<Bytes>, b: nat, n: nat)
    requires b + n <= |leaves| == |values|
  {
    forall i :: b <= i < b + n ==> leaves[i] in v && v[leaves[i]].value == values[i]
  }

  ghost predicate Combinable(values: seq<Bytes>, b: nat, n: nat)
    requires b + n <= |values|
  {
    n <= 1 || forall i :: b <= i < b + n ==> |values[i]| == 32
  }

  // v is the finished tree with this root over leaves[b..b + n], which hold values[b..b + n].
  ghost predicate Built(sha: Hash, root: Node, v: Views, leaves: seq<Node>, values: seq<Bytes>, b: nat, n: nat)
    reads v.Keys
  {
    && n > 0 && b + n <= |leaves| == |values| && Matches(v)
    && TreeOf(v, leaves, root, b, n) && AllHashed(v, sha) && LeafValues(v, leaves, values, b, n)
  }

  lemma BuiltValue(sha: Hash, root: Node, v: Views, leaves: seq<Node>, values: seq<Bytes>, b: nat, n: nat)
    requires Built(sha, root, v, leaves, values, b, n)
    ensures root in v && |root.value| == if n > 1 then 32 else |values[b]|
  {
    assert Shaped(v, leaves, root) && Hashed(v, sha, root);
  }

  /** make_tree: builds the left-complete tree over leaves[begin..begin + size]; no tree, and no root, of
      no leaves. combine_hashes raises, here not ok, exactly when a value to combine is not 32 bytes
      long. */
  method MakeTree(sha: Hash, leaves: seq<Node>, ghost values: seq<Bytes>, begin: nat, size: nat, ghost own: set<Node>)
    returns (ok: bool, root: Node?, ghost v: Views)
    requires Distinct(leaves) && Unlinked(leaves, values, begin, size, own)
    modifies own
    ensures ok <==> Combinable(values, begin, size)
    ensures root != null <==> ok && size > 0
    ensures root != null ==> Built(sha, root, v, leaves, values, begin, size)
    ensures root != null ==> forall x :: x in v ==> fresh(x) || x in own
    decreases size, 1
  {
    hide Built, Distinct, Unlinked;
    if size == 0 {
      return true, null, map[];
    }
    hide Combinable;
    ok := true;
    if size == 1 {
      SingleTree(sha, leaves, values, begin, own);
      root := leaves[begin];
      v := map[root := View(null, null, null, root.value, begin, 1)];
      return;
    }
    var k := LargestPowerOf2LessThan(size);
    var rest, restSize := begin + k, size - k;
    var l, r;
    ghost var vl, vr;
    ok, l, vl, r, vr := MakeHalves(sha, leaves, values, begin, k, rest, restSize, size, own);
    if !ok {
      return false, null, map[];
    }
    root, v := Join(sha, leaves, values, begin, k, rest, restSize, size, l, vl, r, vr);
  }

  // The two subtrees; not ok when there is nothing to combine them to.
  method MakeHalves(sha: Hash, leaves: seq<Node>, ghost values: seq<Bytes>, b: nat, k: nat, c: nat, m: nat,
                    ghost n: nat, ghost own: set<Node>)
    returns (ok: bool, l: Node, ghost vl: Views, r: Node, ghost vr: Views)
    requires k > 0 && m > 0 && c == b + k && n == k + m && Distinct(leaves) && Unlinked(leaves, values, b, n, own)
    modifies own
    ensures ok <==> Combinable(values, b, n)
    ensures ok ==> Built(sha, l, vl, leaves, values, b, k) && Built(sha, r, vr, leaves, values, c, m)
    ensures ok ==> l in vl && r in vr && vl.Keys !! vr.Keys
    ensures ok ==> forall x :: x in vl || x in vr ==> fresh(x) || x in own
    decreases k + m, 0
  {
    ghost var lefts, rights := Halves(leaves, values, b, k, c, m, n, own);
    l, r := leaves[b], leaves[c];
    hide Built, Distinct, Unlinked, Combinable;
    vl, vr := map[], map[];
    var l', r', okr;
    ok, l', vl := MakeTree(sha, leaves, values, b, k, lefts);
    okr, r', vr := MakeTree(sha, leaves, values, c, m, rights);
    CombinableSplit(values, b, k, c, m, n);
    if !ok || !okr {
      ok := false;
      return;
    }
    l, r := l', r';
    BuiltValue(sha, l, vl, leaves, values, b, k);
    BuiltValue(sha, r, vr, leaves, values, c, m);
    ok := |l.value| == 32 && |r.value| == 32;
  }

  lemma Halves(leaves: seq<Node>, values: seq<Bytes>, b: nat, k: nat, c: nat, m: nat, n: nat, own: set<Node>)
    returns (lefts: set<Node>, rights: set<Node>)
    requires n == k + m && c == b + k && Distinct(leaves) && Unlinked(leaves, values, b, n, own)
    ensures Unlinked(leaves, values, b, k, lefts) && Unlinked(leaves, values, c, m, rights)
    ensures lefts !! rights && lefts <= own && rights <= own
  {
    lefts := set i | b <= i < b + k :: leaves[i];
    rights := set i | c <= i < c + m :: leaves[i];
  }

  lemma CombinableSplit(values: seq<Bytes>, b: nat, k: nat, c: nat, m: nat, n: nat)
    requires k > 0 && m > 0 && n == k + m && c == b + k && b + n <= |values|
    ensures Combinable(values, b, n) <==>
            Combinable(values, b, k) && Combinable(values, c, m)
            && (k == 1 ==> |values[b]| == 32) && (m == 1 ==> |values[c]| == 32)
  {
  }

  lemma SingleTree(sha: Hash, leaves: seq<Node>, values: seq<Bytes>, b: nat, own: set<Node>)
    requires Unlinked(leaves, values, b, 1, own)
    ensures b + 1 <= |leaves| == |values| && leaves[b] in own && Combinable(values, b, 1)
    ensures Built(sha, leaves[b], map[leaves[b] := View(null, null, null, leaves[b].value, b, 1)], leaves, values, b, 1)
  {
  }

  lemma JoinedLeaves(vl: Views, vr: Views, leaves: seq<Node>, values: seq<Bytes>, l: Node, r: Node, root: Node,
                     value: Bytes,
                     b: nat, k: nat, c: nat, m: nat, n: nat)
    requires n == k + m && c == b + k && b + n <= |leaves| == |values| && l in vl && r in vr
    requires vl.Keys !! vr.Keys && root !in vl && root !in vr
    requires LeafValues(vl, leaves, values, b, k) && LeafValues(vr, leaves, values, c, m)
    ensures LeafValues(Joined(vl, vr, l, r, root, value), leaves, values, b, n)
  {
    var v := Joined(vl, vr, l, r, root, value);
    JoinedViews(vl, vr, l, r, root, value);
    forall i | b <= i < b + n
      ensures leaves[i] in v && v[leaves[i]].value == values[i]
    {
      assert leaves[i] in if i < b + k then vl else vr;
    }
  }

  // The new root over two adjacent trees.
  method Join(sha: Hash, ghost leaves: seq<Node>, ghost values: seq<Bytes>, ghost b: nat, ghost k: nat, ghost c: nat,
              ghost m: nat, ghost n: nat,
              l: Node, ghost vl: Views, r: Node, ghost vr: Views)
    returns (root: Node, ghost v: Views)
    requires n > 1 && k == Split(n) && n == k + m && c == b + k && vl.Keys !! vr.Keys
    requires Built(sha, l, vl, leaves, values, b, k) && Built(sha, r, vr, leaves, values, c, m)
    modifies l`parent, r`parent
    ensures fresh(root) && v.Keys == vl.Keys + vr.Keys + {root}
    ensures Built(sha, root, v, leaves, values, b, n)
  {
    hide TreeOf, AllHashed, LeafValues, Matches, Joined;
    Roots(vl, leaves, l, b, k);
    Roots(vr, leaves, r, c, m);
    root, v := JoinNodes(sha, l, vl, r, vr);
    ghost var value := Combine(sha, vl[l].value, vr[r].value);
    JoinedTree(vl, vr, leaves, l, r, root, value, b, k, c, m, n);
    JoinedHashes(vl, vr, sha, l, r, root);
    JoinedLeaves(vl, vr, leaves, values, l, r, root, value, b, k, c, m, n);
  }

  // The nodes alone.
  method JoinNodes(sha: Hash, l: Node, ghost vl: Views, r: Node, ghost vr: Views) returns (root: Node, ghost v: Views)
    requires l in vl && r in vr && Matches(vl) && Matches(vr) && vl.Keys !! vr.Keys
    modifies l`parent, r`parent
    ensures fresh(root) && root !in vl && root !in vr && v.Keys == vl.Keys + vr.Keys + {root}
    ensures v == Joined(vl, vr, l, r, root, Combine(sha, vl[l].value, vr[r].value)) && Matches(v)
    ensures root.value == sha([1] + l.value + r.value)
  {
    hide Combine;
    CombineMeans(sha, l.value, r.value);
    root := new Node(l, r, Combine(sha, l.value, r.value));
    l.parent := root;
    r.parent := root;
    v := Joined(vl, vr, l, r, root, root.value);
    hide Joined;
    JoinedViews(vl, vr, l, r, root, root.value);
    JoinedKeys(vl, vr, l, r, root, root.value);
  }

  lemma JoinedKeys(vl: Views, vr: Views, l: Node, r: Node, root: Node, value: Bytes)
    requires l in vl && r in vr
    ensures Joined(vl, vr, l, r, root, value).Keys == vl.Keys + vr.Keys + {root}
  {
  }

  lemma Roots(v: Views, leaves: seq<Node>, root: Node, b: nat, n: nat)
    requires TreeOf(v, leaves, root, b, n)
    ensures root in v && v[root].begin == b && v[root].size == n
  {
  }

  // --- updating ---

  // Every node is hashed but one (none, if null), and perhaps its parent.
  ghost predicate HashedBut(v: Views, sha: Hash, but: Node?) {
    forall x :: x in v && x != but && !(but != null && but in v && x == v[but].parent) ==> Hashed(v, sha, x)
  }

  ghost function WithValue(v: Views, x: Node, value: Bytes): Views
    requires x in v
  {
    v[x := v[x].(value := value)]
  }

  lemma WithValueTree(v: Views, leaves: seq<Node>, root: Node, b: nat, n: nat, x: Node, value: Bytes)
    requires TreeOf(v, leaves, root, b, n) && x in v
    ensures TreeOf(WithValue(v, x, value), leaves, root, b, n)
  {
    var w := WithValue(v, x, value);
    assert forall y :: y in v ==> y in w && w[y] == v[y].(value := w[y].value);
    forall y | y in w
      ensures Shaped(w, leaves, y) && (y != root ==> Linked(w, y)) && b <= w[y].begin && w[y].begin + w[y].size <= b + n
    {
      assert Shaped(v, leaves, y) && (y != root ==> Linked(v, y));
    }
  }

  // A new value of a node can be wrong only for its parent.
  lemma WithValueHashed(v: Views, sha: Hash, leaves: seq<Node>, b: nat, n: nat, x: Node, value: Bytes)
    requires AllShaped(v, leaves, b, n) && x in v && HashedBut(v, sha, x) && Hashed(WithValue(v, x, value), sha, x)
    ensures HashedBut(WithValue(v, x, value), sha, v[x].parent)
  {
    var w := WithValue(v, x, value);
    forall y | y in w && y != v[x].parent
      ensures Hashed(w, sha, y)
    {
      if y != x {
        assert Hashed(v, sha, y) && Shaped(v, leaves, y);
        assert v[y].size > 1 ==> v[y].left != x && v[y].right != x;
      }
    }
  }

  lemma ShapeOf(v: Views, leaves: seq<Node>, root: Node, b: nat, n: nat, x: Node)
    requires TreeOf(v, leaves, root, b, n) && x in v
    ensures b + n <= |leaves| && Shaped(v, leaves, x) && b <= v[x].begin && v[x].begin + v[x].size <= b + n
  {
  }

  lemma ValueLength(v: Views, sha: Hash, leaves: seq<Node>, values: seq<Bytes>, x: Node)
    requires |values| == |leaves| > 1 && LeafValues(v, leaves, values, 0, |leaves|) && Combinable(values, 0, |leaves|)
    requires x in v && Shaped(v, leaves, x) && Hashed(v, sha, x)
    ensures |v[x].value| == 32
  {
  }

  lemma InnerNode(v: Views, sha: Hash, leaves: seq<Node>, values: seq<Bytes>, root: Node, x: Node)
    requires TreeOf(v, leaves, root, 0, |leaves|) && |values| == |leaves|
    requires LeafValues(v, leaves, values, 0, |leaves|) && Combinable(values, 0, |leaves|)
    requires x in v && v[x].size > 1 && HashedBut(v, sha, x)
    ensures v[x].left != null && v[x].right != null && v[x].left in v && v[x].right in v
    ensures |v[v[x].left].value| == 32 && |v[v[x].right].value| == 32
    ensures Hashed(WithValue(v, x, Combine(sha, v[v[x].left].value, v[v[x].right].value)), sha, x)
  {
    hide TreeOf, LeafValues, Combinable;
    ShapeOf(v, leaves, root, 0, |leaves|, x);
    var l, r := v[x].left, v[x].right;
    ShapeOf(v, leaves, root, 0, |leaves|, l);
    ShapeOf(v, leaves, root, 0, |leaves|, r);
    ParentOf(v, leaves, root, |leaves|, x);
    ChildHashed(v, sha, x, l);
    ChildHashed(v, sha, x, r);
    hide HashedBut, Shaped, Hashed;
    ValueLength(v, sha, leaves, values, l);
    ValueLength(v, sha, leaves, values, r);
    NowHashed(v, sha, x, l, r);
  }

  lemma ChildHashed(v: Views, sha: Hash, x: Node, c: Node)
    requires x in v && c in v && HashedBut(v, sha, x) && v[c].size < v[x].size
    requires v[x].parent != null ==> v[x].parent in v && v[v[x].parent].size > v[x].size
    ensures Hashed(v, sha, c)
  {
    hide Hashed;
  }

  lemma NowHashed(v: Views, sha: Hash, x: Node, l: Node, r: Node)
    requires x in v && v[x].left == l && v[x].right == r && l in v && r in v && l != x && r != x
    ensures Hashed(WithValue(v, x, Combine(sha, v[l].value, v[r].value)), sha, x)
  {
    hide Combine;
  }

  lemma ParentOf(v: Views, leaves: seq<Node>, root: Node, n: nat, x: Node)
    requires TreeOf(v, leaves, root, 0, n) && x in v
    ensures v[x].size <= n
    ensures v[x].parent != null ==> v[x].parent in v && v[v[x].parent].size > v[x].size
    ensures v[x].parent != null ==> v[v[x].parent].left == x || v[v[x].parent].right == x
    ensures v[x].parent == null ==> x == root && v[x].size == n
  {
    assert Shaped(v, leaves, x);
    if x != root {
      assert Linked(v, x);
    }
  }

  lemma LeafValue(sha: Hash, root: Node, v: Views, leaves: seq<Node>, values: seq<Bytes>, b: nat, n: nat, x: Node)
    requires Built(sha, root, v, leaves, values, b, n) && x in v && v[x].size == 1
    ensures v[x].begin < |values| && v[x].value == values[v[x].begin]
  {
    ShapeOf(v, leaves, root, b, n, x);
  }

  lemma InnerValue(sha: Hash, root: Node, v: Views, leaves: seq<Node>, values: seq<Bytes>, b: nat, n: nat, x: Node)
    requires Built(sha, root, v, leaves, values, b, n) && x in v
    ensures |values| == |leaves| && Shaped(v, leaves, x) && Hashed(v, sha, x)
  {
    ShapeOf(v, leaves, root, b, n, x);
  }

  // What Shaped and Hashed say of an inner node.
  lemma InnerStep(v: Views, sha: Hash, leaves: seq<Node>, x: Node)
    requires x in v && v[x].size > 1 && Shaped(v, leaves, x) && Hashed(v, sha, x)
    ensures v[x].left != null && v[x].right != null && v[x].left in v && v[x].right in v
    ensures v[v[x].left].begin == v[x].begin && v[v[x].left].size == Split(v[x].size)
    ensures v[v[x].right].begin == v[x].begin + Split(v[x].size) && v[v[x].right].size == v[x].size - Split(v[x].size)
    ensures v[x].value == Combine(sha, v[v[x].left].value, v[v[x].right].value)
  {
  }

  lemma RootOfRange(sha: Hash, values: seq<Bytes>, b: nat, e: nat)
    requires b < e <= |values|
    ensures e == b + 1 ==> Root(sha, values[b..e]) == values[b]
    ensures e > b + 1 ==> Root(sha, values[b..e])
                          == Combine(sha, Root(sha, values[b..b + Split(e - b)]),
                                     Root(sha, values[b + Split(e - b)..e]))
  {
    var d := values[b..e];
    if e > b + 1 {
      var k := Split(e - b);
      assert d[..k] == values[b..b + k] && d[k..] == values[b + k..e];
    }
  }

  /** Every node's value is the recursive hash of the leaves it covers. */
  lemma {:induction false} NodeHash(sha: Hash, root: Node, v: Views, leaves: seq<Node>, values: seq<Bytes>, b: nat,
                                    n: nat, x: Node)
    requires Built(sha, root, v, leaves, values, b, n) && x in v
    ensures v[x].size >= 1 && v[x].begin + v[x].size <= |values|
    ensures v[x].value == Root(sha, values[v[x].begin..v[x].begin + v[x].size])
    decreases v[x].size
  {
    hide Built, Root, Combine;
    InnerValue(sha, root, v, leaves, values, b, n, x);
    var begin, end := v[x].begin, v[x].begin + v[x].size;
    RootOfRange(sha, values, begin, end);
    if v[x].size > 1 {
      InnerStep(v, sha, leaves, x);
      hide Shaped, Hashed;
      NodeHash(sha, root, v, leaves, values, b, n, v[x].left);
      NodeHash(sha, root, v, leaves, values, b, n, v[x].right);
    } else {
      LeafValue(sha, root, v, leaves, values, b, n, x);
    }
  }

  /** Every node's value is the tree hash of the leaves it covers. */
  lemma NodeValue(sha: Hash, root: Node, v: Views, leaves: seq<Node>, values: seq<Bytes>, b: nat, n: nat, x: Node)
    requires Built(sha, root, v, leaves, values, b, n) && x in v
    ensures v[x].size >= 1 && v[x].begin + v[x].size <= |values|
    ensures IsRoot(sha, values[v[x].begin..v[x].begin + v[x].size], v[x].value)
  {
    hide Built, Root, IsRoot;
    NodeHash(sha, root, v, leaves, values, b, n, x);
    RootMeans(sha, values[v[x].begin..v[x].begin + v[x].size]);
  }

  lemma RootHash(sha: Hash, root: Node, v: Views, leaves: seq<Node>, values: seq<Bytes>)
    requires Built(sha, root, v, leaves, values, 0, |leaves|)
    ensures values != [] && root.value == Root(sha, values)
  {
    hide Built, Root;
    RootHere(sha, root, v, leaves, values);
    NodeHash(sha, root, v, leaves, values, 0, |leaves|, root);
    assert values[0..|values|] == values;
  }

  /** And the root's that of all leaves. */
  lemma RootValue(sha: Hash, root: Node, v: Views, leaves: seq<Node>, values: seq<Bytes>)
    requires Built(sha, root, v, leaves, values, 0, |leaves|)
    ensures IsRoot(sha, values, root.value)
  {
    hide Built, Root, IsRoot;
    RootHash(sha, root, v, leaves, values);
    RootMeans(sha, values);
  }

  lemma RootHere(sha: Hash, root: Node, v: Views, leaves: seq<Node>, values: seq<Bytes>)
    requires Built(sha, root, v, leaves, values, 0, |leaves|)
    ensures root in v && v[root].begin == 0 && v[root].size == |leaves| == |values| > 0 && v[root].value == root.value
  {
    hide AllShaped, AllLinked, HasLeaves, AllHashed, LeafValues;
  }

  // proof is the path from leaf index up to the root of the range of leaves [b, e).
  ghost predicate PathUp(sha: Hash, values: seq<Bytes>, index: nat, b: nat, e: nat, proof: seq<Bytes>) {
    b <= index < e <= |values| && proof == Path(sha, index - b, values[b..e])
  }

  ghost predicate PathTo(sha: Hash, v: Views, values: seq<Bytes>, index: nat, x: Node, proof: seq<Bytes>)
    requires x in v
  {
    PathUp(sha, values, index, v[x].begin, v[x].begin + v[x].size, proof)
  }

  lemma LeafPath(sha: Hash, root: Node, v: Views, leaves: seq<Node>, values: seq<Bytes>, index: nat)
    requires index < |leaves| && Built(sha, root, v, leaves, values, 0, |leaves|)
    ensures leaves[index] in v && PathTo(sha, v, values, index, leaves[index], [])
  {
    LeafHere(v, leaves, root, |leaves|, index);
  }

  lemma PathGrows(sha: Hash, values: seq<Bytes>, index: nat, b: nat, k: nat, e: nat, proof: seq<Bytes>, l: Bytes,
                  r: Bytes)
    requires b + 1 < e <= |values| && k == b + Split(e - b)
    requires l == Root(sha, values[b..k]) && r == Root(sha, values[k..e])
    ensures PathUp(sha, values, index, b, k, proof) ==> PathUp(sha, values, index, b, e, proof + [r])
    ensures PathUp(sha, values, index, k, e, proof) ==> PathUp(sha, values, index, b, e, proof + [l])
  {
    if b <= index < e {
      var d, dl, dr := values[b..e], values[b..k], values[k..e];
      assert d[..k - b] == dl && d[k - b..] == dr;
      var m: nat := index - b;
      PathStep(sha, m, d, k - b, dl, dr);
      hide Path, Root, Split;
    }
  }

  lemma PathStep(sha: Hash, m: nat, d: seq<Bytes>, k: nat, dl: seq<Bytes>, dr: seq<Bytes>)
    requires m < |d| && |d| > 1 && k == Split(|d|) && dl == d[..k] && dr == d[k..]
    ensures m < k ==> Path(sha, m, d) == Path(sha, m, dl) + [Root(sha, dr)]
    ensures m >= k ==> Path(sha, m, d) == Path(sha, m - k, dr) + [Root(sha, dl)]
  {
  }

  lemma ParentPath(sha: Hash, root: Node, v: Views, leaves: seq<Node>, values: seq<Bytes>, index: nat, x: Node,
                   proof: seq<Bytes>)
    requires Built(sha, root, v, leaves, values, 0, |leaves|) && x in v && v[x].parent != null
             && PathTo(sha, v, values, index, x, proof)
    ensures v[x].parent in v
    ensures var p := v[v[x].parent];
            && p.left != null && p.right != null && (p.left == x || p.right == x) && p.left in v && p.right in v
            && PathTo(sha, v, values, index, v[x].parent,
                      proof + [(if p.left == x then v[p.right] else v[p.left]).value])
    ensures 0 <= Height(v, v[x].parent, |leaves|) < Height(v, x, |leaves|)
  {
    hide PathUp, Root, AllShaped, AllLinked, HasLeaves, Matches, LeafValues, AllHashed;
    ParentOf(v, leaves, root, |leaves|, x);
    var p := v[x].parent;
    ParentOf(v, leaves, root, |leaves|, p);
    hide Built;
    InnerValue(sha, root, v, leaves, values, 0, |leaves|, x);
    InnerValue(sha, root, v, leaves, values, 0, |leaves|, p);
    InnerStep(v, sha, leaves, p);
    hide Shaped, Hashed;
    var l, r := v[p].left, v[p].right;
    NodeHash(sha, root, v, leaves, values, 0, |leaves|, p);
    NodeHash(sha, root, v, leaves, values, 0, |leaves|, l);
    NodeHash(sha, root, v, leaves, values, 0, |leaves|, r);
    PathGrows(sha, values, index, v[p].begin, v[r].begin, v[p].begin + v[p].size, proof, v[l].value, v[r].value);
  }

  lemma RootPath(sha: Hash, root: Node, v: Views, leaves: seq<Node>, values: seq<Bytes>, index: nat, x: Node,
                 proof: seq<Bytes>)
    requires Built(sha, root, v, leaves, values, 0, |leaves|) && x in v && v[x].parent == null
             && PathTo(sha, v, values, index, x, proof)
    ensures |values| == |leaves| && index < |values| && proof == Path(sha, index, values)
  {
    hide Path, AllShaped, AllLinked, HasLeaves, Matches, LeafValues, AllHashed;
    ParentOf(v, leaves, root, |leaves|, x);
    assert values[0..|values|] == values;
  }

  // Two different children of one parent, of adjacent ranges of leaves that make up its own.
  ghost predicate Siblings(v: Views, x: Node, y: Node)
    requires x in v && y in v
  {
    var p := v[x].parent;
    && x != y && p != null && p in v && v[y].parent == p
    && v[x].size + v[y].size == v[p].size
    && ((v[p].left == x && v[p].right == y && v[x].begin + v[x].size == v[y].begin)
        || (v[p].left == y && v[p].right == x && v[y].begin + v[y].size == v[x].begin))
  }

  lemma SiblingsOf(sha: Hash, root: Node, v: Views, leaves: seq<Node>, values: seq<Bytes>, x: Node)
    requires Built(sha, root, v, leaves, values, 0, |leaves|) && x in v
    ensures v[x].parent == null <==> x == root
    ensures v[x].parent != null ==> v[x].parent in v
    ensures v[x].parent != null ==> var p := v[v[x].parent];
            && (p.left == x || p.right == x)
            && (p.left == x ==> p.right != null && p.right in v && Siblings(v, x, p.right))
            && (p.left != x ==> p.left != null && p.left in v && Siblings(v, x, p.left))
  {
    hide Shaped, Linked, AllHashed, Matches, LeafValues, HasLeaves;
    ParentOf(v, leaves, root, |leaves|, x);
    var p := v[x].parent;
    if p != null {
      InnerValue(sha, root, v, leaves, values, 0, |leaves|, p);
      InnerValue(sha, root, v, leaves, values, 0, |leaves|, x);
      hide Built;
      ShapedParts(v, leaves, p);
      ShapedSize(v, leaves, x);
    }
  }

  lemma ShapedSize(v: Views, leaves: seq<Node>, x: Node)
    requires x in v && Shaped(v, leaves, x)
    ensures v[x].size >= 1
  {
  }

  lemma ShapedParts(v: Views, leaves: seq<Node>, p: Node)
    requires p in v && Shaped(v, leaves, p) && v[p].size > 1
    ensures v[p].left != null && v[p].right != null && v[p].left in v && v[p].right in v
    ensures Siblings(v, v[p].left, v[p].right) && Siblings(v, v[p].right, v[p].left)
  {
  }

  lemma SiblingsTell(v: Views, x: Node, y: Node)
    requires x in v && y in v && Siblings(v, x, y)
    ensures v[x].parent != null && v[x].parent in v
    ensures var p := v[v[x].parent]; y == if p.left == x then p.right else p.left
  {
  }

  // --- one more leaf ---

  // What set and add come to: done, refused with nothing changed, or an error on the way.
  datatype Outcome = Done | Refused | Raised

  /** The lists of elements that another one can be added to: the empty one; one element, if it is a hash;
      and those whose length is a power of two, or such a one and a smaller one. */
  ghost predicate Appendable(values: seq<Bytes>) {
    var n := |values|;
    n == 0 || (if n == 1 then |values[0]| == 32 else IsPower(n) || IsPower(n - Split(n)))
  }

  /** Seven elements are the fewest hashes nothing can be added to. */
  lemma SevenIsFull(values: seq<Bytes>)
    requires |values| <= 7 && Combinable(values, 0, |values|) && (|values| == 1 ==> |values[0]| == 32)
    ensures Appendable(values) <==> |values| < 7
  {
    var n := |values|;
    if n == 7 {
      OddPower(7);
      OddPower(3);
      SmallPowers();
      SplitIs(4, 7);
    } else if n > 1 {
      SmallPowers();
      if n == 3 { SplitIs(2, 3); }
      if n == 5 { SplitIs(4, 5); }
      if n == 6 { SplitIs(4, 6); }
    }
    hide Split, IsPower;
  }

  lemma SmallPowers()
    ensures IsPower(1) && IsPower(2) && IsPower(4)
  {
    assert Pow(2, 0) == 1;
    assert Pow(2, 1) == 2;
    assert Pow(2, 2) == 4;
  }

  // Where another leaf is put in: the root of a complete tree, or its right subtree if that is complete.
  ghost predicate JoinsAt(v: Views, root: Node, n: nat, cur: Node)
    requires root in v
  {
    if IsPower(n) then cur == root else n > 1 && IsPower(n - Split(n)) && cur == v[root].right
  }

  ghost function WithParent(v: Views, x: Node, parent: Node?): (w: Views)
    requires x in v
    ensures w.Keys == v.Keys
  {
    v[x := v[x].(parent := parent)]
  }

  // A right child, with one more leaf than before, where there is a parent.
  ghost function WithRight(v: Views, parent: Node?, right: Node): (w: Views)
    ensures w.Keys == v.Keys
  {
    if parent != null && parent in v then v[parent := v[parent].(right := right, size := v[parent].size + 1)] else v
  }

  // The new nodes before they are linked.
  ghost function Unattached(v: Views, cur: Node, leaf: Node, node: Node, x: Bytes): (w: Views)
    requires cur in v
    ensures w.Keys == v.Keys + {leaf, node}
  {
    v[leaf := View(null, null, null, x, v[cur].begin + v[cur].size, 1)]
     [node := View(cur, leaf, null, [], v[cur].begin, v[cur].size + 1)]
  }

  // The tree with a new node in place of cur, over cur and a new leaf.
  ghost function Grown(v: Views, cur: Node, leaf: Node, node: Node, x: Bytes): (w: Views)
    requires cur in v
    ensures w.Keys == v.Keys + {leaf, node}
  {
    var p := v[cur].parent;
    var w := WithRight(WithParent(Unattached(v, cur, leaf, node, x), node, p), p, node);
    WithParent(WithParent(w, cur, node), leaf, node)
  }

  lemma MatchesUnattached(v: Views, cur: Node, leaf: Node, node: Node)
    requires Matches(v) && cur in v && leaf !in v && node !in v && leaf != node && Single(leaf, leaf.value)
    requires node.left == cur && node.right == leaf && node.parent == null && node.value == []
    ensures Matches(Unattached(v, cur, leaf, node, leaf.value))
  {
  }

  lemma GrownView(v: Views, cur: Node, leaf: Node, node: Node, x: Bytes)
    requires cur in v && leaf !in v && node !in v && leaf != node && v[cur].parent != cur
    requires v[cur].parent != null ==> v[cur].parent in v
    ensures var w := Grown(v, cur, leaf, node, x);
            && w.Keys == v.Keys + {leaf, node}
            && w[leaf] == View(null, null, node, x, v[cur].begin + v[cur].size, 1)
            && w[node] == View(cur, leaf, v[cur].parent, [], v[cur].begin, v[cur].size + 1)
            && forall y :: y in v ==>
                 w[y] == if y == cur then v[y].(parent := node)
                         else if y == v[cur].parent then v[y].(right := node, size := v[y].size + 1) else v[y]
  {
  }

  // Where the new node goes, in numbers.
  lemma JoinSizes(n: nat)
    requires n >= 1
    ensures IsPower(n) ==> Split(n + 1) == n
    ensures n > 1 && !IsPower(n) && IsPower(n - Split(n)) ==>
            Split(n + 1) == Split(n) && Split(n - Split(n) + 1) == n - Split(n)
  {
    if IsPower(n) {
      SplitIs(n, n + 1);
    } else if n > 1 && IsPower(n - Split(n)) {
      var k := Split(n);
      var s: nat := n - k;
      SplitPower(n);
      if s == k { DoublePower(k); }
      SplitIs(k, n + 1);
      SplitIs(s, s + 1);
    }
  }

  // What is known of the place.
  ghost predicate Placed(v: Views, root: Node, n: nat, cur: Node) {
    && cur in v && root in v && v[root].parent == null && v[root].begin == 0 && v[root].size == n
    && v[cur].begin + v[cur].size == n && v[cur].size >= 1 && Split(v[cur].size + 1) == v[cur].size
    && v[cur].parent == (if cur == root then null else root)
    && (cur != root ==> n > 1 && v[root].right == cur && v[cur].size < n && v[cur].begin == Split(n) == Split(n + 1))
  }

  lemma RootFacts(v: Views, leaves: seq<Node>, root: Node, n: nat)
    requires TreeOf(v, leaves, root, 0, n)
    ensures n <= |leaves| && root in v && v[root].parent == null && v[root].begin == 0 && v[root].size == n
    ensures Shaped(v, leaves, root)
  {
    hide Shaped, AllLinked, HasLeaves;
  }

  lemma JoinPlace(v: Views, leaves: seq<Node>, root: Node, n: nat, cur: Node)
    requires TreeOf(v, leaves, root, 0, n) && n == |leaves| && root in v && JoinsAt(v, root, n, cur)
    ensures Placed(v, root, n, cur)
  {
    hide TreeOf, Split;
    RootFacts(v, leaves, root, n);
    JoinSizes(n);
  }

  // A node that keeps its children, and these their ranges and parents.
  lemma ShapedKept(v: Views, w: Views, leaves: seq<Node>, leaf: Node, y: Node)
    requires y in v && y in w && Shaped(v, leaves, y) && w[y] == v[y].(parent := w[y].parent)
    requires forall c :: c in v && v[c].parent == y ==> c in w && w[c] == v[c].(left := w[c].left, right := w[c].right)
    ensures Shaped(w, leaves + [leaf], y)
  {
    hide Split;
  }

  // The new node, and the root above it.
  lemma ShapedNew(v: Views, w: Views, leaves: seq<Node>, root: Node, cur: Node, leaf: Node, node: Node, x: Bytes)
    requires Placed(v, root, |leaves|, cur) && leaf !in v && node !in v && leaf != node
             && w == Grown(v, cur, leaf, node, x)
    requires Shaped(v, leaves, root)
    ensures node in w && Shaped(w, leaves + [leaf], node) && leaf in w && Shaped(w, leaves + [leaf], leaf)
    ensures root in w && (cur != root ==> Shaped(w, leaves + [leaf], root))
  {
    GrownView(v, cur, leaf, node, x);
    hide Grown, Split;
  }

  lemma GrownShaped(v: Views, leaves: seq<Node>, root: Node, cur: Node, leaf: Node, node: Node, x: Bytes, y: Node)
    requires Placed(v, root, |leaves|, cur) && leaf !in v && node !in v && leaf != node
             && y in Grown(v, cur, leaf, node, x)
    requires Shaped(v, leaves, root) && (y in v ==> Shaped(v, leaves, y))
    ensures var w := Grown(v, cur, leaf, node, x);
            Shaped(w, leaves + [leaf], y) && w[y].begin + w[y].size <= |leaves| + 1
  {
    var w := Grown(v, cur, leaf, node, x);
    ShapedNew(v, w, leaves, root, cur, leaf, node, x);
    if y in v && (y != root || cur == root) {
      ShapedOld(v, w, leaves, root, cur, leaf, node, x, y);
    } else {
      GrownView(v, cur, leaf, node, x);
    }
    hide Grown, Split, Shaped;
  }

  lemma ShapedOld(v: Views, w: Views, leaves: seq<Node>, root: Node, cur: Node, leaf: Node, node: Node, x: Bytes,
                  y: Node)
    requires Placed(v, root, |leaves|, cur) && leaf !in v && node !in v && leaf != node
             && w == Grown(v, cur, leaf, node, x)
    requires y in v && (y != root || cur == root) && Shaped(v, leaves, y)
    ensures y in w && Shaped(w, leaves + [leaf], y) && w[y].begin + w[y].size <= |leaves| + 1
  {
    GrownView(v, cur, leaf, node, x);
    hide Grown, Split;
    InBounds(v, leaves, y);
    hide Shaped;
    ShapedKept(v, w, leaves, leaf, y);
  }

  lemma InBounds(v: Views, leaves: seq<Node>, y: Node)
    requires y in v && Shaped(v, leaves, y)
    ensures v[y].begin + v[y].size <= |leaves|
  {
  }

  lemma GrownLinked(v: Views, root: Node, n: nat, cur: Node, leaf: Node, node: Node, x: Bytes, y: Node)
    requires Placed(v, root, n, cur) && leaf !in v && node !in v && leaf != node && y in Grown(v, cur, leaf, node, x)
    requires (y in v && y != root ==> Linked(v, y)) && y != if cur == root then node else root
    ensures Linked(Grown(v, cur, leaf, node, x), y)
  {
    GrownView(v, cur, leaf, node, x);
    hide Grown, Split;
  }

  lemma GrownTree(v: Views, leaves: seq<Node>, root: Node, cur: Node, leaf: Node, node: Node, x: Bytes)
    requires TreeOf(v, leaves, root, 0, |leaves|) && Placed(v, root, |leaves|, cur)
    requires leaf !in v && node !in v && leaf != node
    ensures TreeOf(Grown(v, cur, leaf, node, x), leaves + [leaf], if cur == root then node else root, 0, |leaves| + 1)
  {
    var w, top := Grown(v, cur, leaf, node, x), if cur == root then node else root;
    RootFacts(v, leaves, root, |leaves|);
    forall y | y in w
      ensures Shaped(w, leaves + [leaf], y) && w[y].begin + w[y].size <= |leaves| + 1
    {
      GrownShaped(v, leaves, root, cur, leaf, node, x, y);
    }
    hide Shaped;
    assert AllShaped(w, leaves + [leaf], 0, |leaves| + 1);
    forall y | y in w && y != top
      ensures Linked(w, y)
    {
      GrownLinked(v, root, |leaves|, cur, leaf, node, x, y);
    }
    hide Linked, AllShaped;
    assert AllLinked(w, top);
    hide AllLinked;
    GrownLeaves(v, leaves, root, cur, leaf, node, x);
    GrownView(v, cur, leaf, node, x);
    hide Grown, Split, HasLeaves;
  }

  lemma GrownLeaves(v: Views, leaves: seq<Node>, root: Node, cur: Node, leaf: Node, node: Node, x: Bytes)
    requires HasLeaves(v, leaves, 0, |leaves|) && Placed(v, root, |leaves|, cur)
    requires leaf !in v && node !in v && leaf != node
    ensures HasLeaves(Grown(v, cur, leaf, node, x), leaves + [leaf], 0, |leaves| + 1)
  {
    GrownView(v, cur, leaf, node, x);
    hide Grown, Split;
  }

  // The hashes of the others stand.
  lemma GrownHashed(v: Views, sha: Hash, root: Node, n: nat, cur: Node, leaf: Node, node: Node, x: Bytes)
    requires Placed(v, root, n, cur) && AllHashed(v, sha) && leaf !in v && node !in v && leaf != node
    ensures HashedBut(Grown(v, cur, leaf, node, x), sha, node)
  {
    GrownView(v, cur, leaf, node, x);
    hide Grown, Split, Combine;
    var w := Grown(v, cur, leaf, node, x);
    forall y | y in w && y != node && y != w[node].parent
      ensures Hashed(w, sha, y)
    {
      if y in v { HashedKept(v, w, sha, y); }
    }
  }

  lemma HashedKept(v: Views, w: Views, sha: Hash, y: Node)
    requires y in v && y in w && AllHashed(v, sha) && w[y] == v[y].(parent := w[y].parent)
    requires forall c :: c in v ==> c in w && w[c].value == v[c].value
    ensures Hashed(w, sha, y)
  {
    assert Hashed(v, sha, y);
  }

  lemma GrownValues(v: Views, leaves: seq<Node>, values: seq<Bytes>, root: Node, cur: Node, leaf: Node, node: Node,
                    x: Bytes)
    requires Placed(v, root, |leaves|, cur) && |values| == |leaves|
    requires LeafValues(v, leaves, values, 0, |leaves|) && leaf !in v && node !in v && leaf != node
    ensures LeafValues(Grown(v, cur, leaf, node, x), leaves + [leaf], values + [x], 0, |leaves| + 1)
  {
    GrownView(v, cur, leaf, node, x);
    hide Grown, Split;
  }

  /** The whole tree stands with the new node, but for its hash and its parent's. */
  lemma GrownStands(sha: Hash, root: Node, v: Views, leaves: seq<Node>, values: seq<Bytes>, cur: Node, leaf: Node,
                    node: Node, x: Bytes)
    requires leaves != [] && Built(sha, root, v, leaves, values, 0, |leaves|) && Placed(v, root, |leaves|, cur)
    requires Combinable(values, 0, |values|) && |x| == 32 && (|values| == 1 ==> |values[0]| == 32)
    requires leaf !in v && node !in v && leaf != node
    ensures AllBut(sha, if cur == root then node else root, Grown(v, cur, leaf, node, x), leaves + [leaf],
                   values + [x], node)
  {
    hide TreeOf, LeafValues, AllHashed, HashedBut, Matches, Grown, Placed, Combinable;
    GrownTree(v, leaves, root, cur, leaf, node, x);
    GrownHashed(v, sha, root, |leaves|, cur, leaf, node, x);
    GrownValues(v, leaves, values, root, cur, leaf, node, x);
    OneMore(values, x);
    GrownNode(v, root, |leaves|, cur, leaf, node, x);
  }

  lemma OneMore(values: seq<Bytes>, x: Bytes)
    requires Combinable(values, 0, |values|) && |x| == 32 && (|values| == 1 ==> |values[0]| == 32)
    ensures Combinable(values + [x], 0, |values| + 1)
  {
  }

  lemma GrownNode(v: Views, root: Node, n: nat, cur: Node, leaf: Node, node: Node, x: Bytes)
    requires Placed(v, root, n, cur) && leaf !in v && node !in v && leaf != node
    ensures node in Grown(v, cur, leaf, node, x) && Grown(v, cur, leaf, node, x)[node].size > 1
  {
  }

  lemma FirstLeaf(sha: Hash, leaf: Node, leaves: seq<Node>, values: seq<Bytes>)
    requires leaves == [leaf] && values == [leaf.value] && Single(leaf, leaf.value)
    ensures Built(sha, leaf, map[leaf := View(null, null, null, leaf.value, 0, 1)], leaves, values, 0, 1)
    ensures Combinable(values, 0, 1) && CeilingOfLog(0, 1)
  {
  }

  lemma NothingYet(values: seq<Bytes>)
    requires values == []
    ensures Appendable(values)
  {
  }

  lemma AppendableLong(values: seq<Bytes>)
    requires values != []
    ensures Appendable(values) <==>
            (|values| == 1 ==> |values[0]| == 32)
              && (IsPower(|values|) || (|values| > 1 && IsPower(|values| - Split(|values|))))
  {
    hide Split;
    assert IsPower(1) by { assert 1 == Pow(2, 0); }
  }

  lemma JoinsHere(v: Views, root: Node, n: nat, cur: Node)
    requires root in v
    requires if IsPower(n) then cur == root else n > 1 && IsPower(n - Split(n)) && cur == v[root].right
    ensures JoinsAt(v, root, n, cur)
  {
  }

  lemma BuiltTree(sha: Hash, root: Node, v: Views, leaves: seq<Node>, values: seq<Bytes>)
    requires Built(sha, root, v, leaves, values, 0, |leaves|)
    ensures TreeOf(v, leaves, root, 0, |leaves|) && Matches(v) && |values| == |leaves| > 0 && root in v
  {
    hide Matches, AllShaped, AllLinked, HasLeaves, AllHashed, LeafValues;
  }

  // The left subtree of a tree that is not complete, from the depth.
  lemma LeftSize(n: nat, depth: nat)
    requires n >= 1 && CeilingOfLog(depth, n)
    ensures n > 1 && !IsPower(n) ==> depth > 0 && Pow(2, depth - 1) == Split(n) < n
    ensures n == 1 ==> IsPower(n)
  {
    assert IsPower(1) by { assert 1 == Pow(2, 0); }
    if n > 1 && !IsPower(n) {
      assert IsPower(Pow(2, depth));
      assert depth > 0;
      var k := Pow(2, depth - 1);
      assert IsPower(k) && 2 * k == Pow(2, depth);
      hide Split;
      SplitIs(k, n);
    }
  }

  lemma RightOfRoot(v: Views, leaves: seq<Node>, root: Node, n: nat)
    requires TreeOf(v, leaves, root, 0, n)
    ensures root in v && (n > 1 ==> v[root].right != null && v[root].right != root)
  {
    hide AllLinked, HasLeaves, Split;
    assert Shaped(v, leaves, root);
  }

  lemma PlacedNodes(v: Views, leaves: seq<Node>, root: Node, cur: Node)
    requires Placed(v, root, |leaves|, cur)
    ensures cur in v && v[cur].parent != cur && root in v && v[cur].parent == (if cur == root then null else root)
  {
    hide Split;
  }

  lemma CurLength(sha: Hash, root: Node, v: Views, leaves: seq<Node>, values: seq<Bytes>, cur: Node)
    requires Built(sha, root, v, leaves, values, 0, |leaves|) && Combinable(values, 0, |values|) && cur in v
    ensures |values| == |leaves| && leaves != []
    ensures |v[cur].value| == 32 <==> (|values| == 1 ==> |values[0]| == 32)
  {
    InnerValue(sha, root, v, leaves, values, 0, |leaves|, cur);
    ShapedSize(v, leaves, cur);
    if |values| > 1 {
      hide Matches, TreeOf, AllHashed;
      ValueLength(v, sha, leaves, values, cur);
    } else {
      OnlyLeaf(v, leaves, cur);
      LeafValue(sha, root, v, leaves, values, 0, 1, cur);
    }
  }

  lemma OnlyLeaf(v: Views, leaves: seq<Node>, x: Node)
    requires x in v && Shaped(v, leaves, x) && |leaves| == 1
    ensures v[x].size == 1 && v[x].begin == 0
  {
  }

  // The depth after one more leaf.
  lemma DeeperBy(n: nat, depth: nat, complete: bool)
    requires n >= 1 && CeilingOfLog(depth, n) && (IsPower(n) <==> complete)
    ensures CeilingOfLog(if complete then depth + 1 else depth, n + 1)
  {
    if complete {
      var e: nat :| n == Pow(2, e);
      if e < depth { PowerAtLeast(e, depth - 1); }
      if depth < e { PowerStep(depth, e); }
      PowPositive(2, e);
    } else {
      assert n != Pow(2, depth);
    }
  }

  class MerkleTree {
    const sha: Hash
    var leaves: seq<Node>
    var depth: Option<nat>
    var rootNode: Node?
    ghost var values: seq<Bytes>
    ghost var views: Views

    ghost predicate Valid()
      reads this, views.Keys
    {
      if leaves == [] then rootNode == null && depth == None && values == [] && views == map[]
      else
        && depth.Some? && CeilingOfLog(depth.value, |leaves|) && rootNode != null
        && Built(sha, rootNode, views, leaves, values, 0, |leaves|) && Combinable(values, 0, |leaves|)
    }

    constructor (sha: Hash, leaves: seq<Node>, root: Node?, depth: Option<nat>, ghost values: seq<Bytes>,
                 ghost views: Views)
      ensures this.sha == sha && this.leaves == leaves && rootNode == root && this.depth == depth
      ensures this.values == values && this.views == views
    {
      this.sha, this.leaves, rootNode, this.depth, this.values, this.views := sha, leaves, root, depth, values, views;
    }

    /** The tree over a list of elements; None, for the error combine_hashes raises, exactly when there
        are several elements and one is not 32 bytes long. */
    static method Create(sha: Hash, elements: seq<Bytes>) returns (t: Option<MerkleTree>)
      ensures t.Some? <==> Combinable(elements, 0, |elements|)
      ensures t.Some? ==> fresh(t.value) && t.value.Valid() && t.value.values == elements && t.value.sha == sha
      ensures t.Some? ==> |t.value.leaves| == |elements| && forall x :: x in t.value.views ==> fresh(x)
    {
      hide Built, Combinable;
      var nodes := [];
      ghost var own: set<Node> := {};
      for i := 0 to |elements|
        invariant |nodes| == i && forall x :: x in own ==> fresh(x)
        invariant Distinct(nodes) && forall j :: 0 <= j < i ==> nodes[j] in own && Single(nodes[j], elements[j])
      {
        var leaf := new Node(null, null, elements[i]);
        nodes := nodes + [leaf];
        own := own + {leaf};
      }
      if nodes == [] {
        var tree := new MerkleTree(sha, nodes, null, None, elements, map[]);
        assert Combinable(elements, 0, 0) by { NothingToCombine(elements); }
        return Some(tree);
      }
      assert Unlinked(nodes, elements, 0, |nodes|, own);
      ghost var views;
      var ok, root;
      ok, root, views := MakeTree(sha, nodes, elements, 0, |nodes|, own);
      if !ok {
        return None;
      }
      var depth := CeilLg(|nodes|);
      var tree := new MerkleTree(sha, nodes, root, Some(depth), elements, views);
      return Some(tree);
    }

    /** The Merkle root: the recursive hash of the current leaves, or 32 zero bytes for an empty tree. */
    method GetRoot() returns (r: Bytes)
      requires Valid()
      ensures r == if values == [] then Zeros(32) else Root(sha, values)
      ensures values != [] ==> IsRoot(sha, values, r)
    {
      if rootNode == null {
        return Zeros(32);
      }
      hide Built, Root, IsRoot;
      RootHash(sha, rootNode, views, leaves, values);
      RootValue(sha, rootNode, views, leaves, values);
      r := rootNode.value;
    }

    /** prove_leaf: the sibling values on the way up are the inclusion proof of section 2.1.1 of RFC 6962. */
    method ProveLeaf(index: nat) returns (proof: seq<Bytes>)
      requires Valid() && index < |leaves|
      ensures |values| == |leaves| && proof == Path(sha, index, values)
      ensures depth.Some? && |proof| <= depth.value
    {
      hide Built, Path, Shaped, Linked, PathUp, Siblings;
      var node := leaves[index];
      proof := [];
      LeafPath(sha, rootNode, views, leaves, values, index);
      MatchesBuilt(sha, rootNode, views, leaves, values);
      while node.parent != null
        invariant node in views && PathTo(sha, views, values, index, node, proof)
        decreases Height(views, node, |leaves|)
      {
        ParentPath(sha, rootNode, views, leaves, values, index, node, proof);
        SiblingsOf(sha, rootNode, views, leaves, values, node);
        var sibling := Sibling(node);
        SiblingsTell(views, node, sibling);
        proof := proof + [sibling.value];
        node := node.parent;
      }
      RootPath(sha, rootNode, views, leaves, values, index, node, proof);
      PathWithinDepth(sha, index, values, depth.value);
    }

    /** sibling: no sibling, for the error it raises, exactly for the root; for any other node the other
        child of its parent, whose leaves are next to the node's and make up the parent's with them. */
    method Sibling(node: Node) returns (sibling: Node?)
      requires Valid() && node in views
      ensures sibling == null <==> node == rootNode
      ensures sibling != null ==> sibling in views && Siblings(views, node, sibling)
    {
      hide Built, Siblings;
      SiblingsOf(sha, rootNode, views, leaves, values, node);
      MatchesBuilt(sha, rootNode, views, leaves, values);
      if node.parent == null {
        return null;
      }
      if node.parent.left == node {
        sibling := node.parent.right;
      } else {
        sibling := node.parent.left;
      }
    }

    method Get(i: nat) returns (x: Bytes)
      requires Valid() && i < |leaves|
      ensures x == values[i]
    {
      x := leaves[i].value;
    }

    /** set: a new value for one leaf, or for the place behind the last, one more leaf. A value of the
        wrong length and an index beyond are refused; of the lists that cannot be added to, the tree is
        left unusable. */
    method Set(index: nat, x: Bytes) returns (r: Outcome)
      requires Valid()
      modifies this`leaves, this`depth, this`rootNode, this`values, this`views, views.Keys
      ensures match r
              case Refused =>
                (|x| != 32 || index > |leaves|) && Valid() && leaves == old(leaves) && values == old(values)
              case Raised =>
                |x| == 32 && index == old(|leaves|) && !Appendable(old(values)) && !Valid()
                  && |leaves| == old(|leaves|) + 1
              case Done =>
                |x| == 32 && Valid() && index <= old(|leaves|)
                && (if index < old(|leaves|) then leaves == old(leaves) && values == old(values)[index := x]
                    else Appendable(old(values)) && values == old(values) + [x])
    {
      hide Built, Combinable, AllBut, Matches, Appendable;
      if index > |leaves| || |x| != 32 {
        return Refused;
      }
      if index == |leaves| {
        r := Add(x);
      } else {
        var parent := SetLeaf(index, x);
        FixUp(parent);
        r := Done;
      }
    }

    /** add: one more leaf, exactly when the list can be added to. Otherwise the leaf is in the list of leaves
        and not in the tree. The size of the left subtree is a float from the first round of the loop
        on, so that is_power_of_2 raises in a third test. */
    method Add(x: Bytes) returns (r: Outcome)
      requires Valid()
      modifies this`leaves, this`depth, this`rootNode, this`values, this`views, views.Keys
      ensures match r
              case Refused => |x| != 32 && Valid() && leaves == old(leaves) && values == old(values)
              case Raised => |x| == 32 && !Appendable(old(values)) && !Valid() && |leaves| == old(|leaves|) + 1
              case Done => |x| == 32 && Appendable(old(values)) && Valid() && values == old(values) + [x]
    {
      if |x| != 32 {
        return Refused;
      }
      var newLeaf := new Node(null, null, x);
      if leaves == [] {
        leaves := [newLeaf];
        StartWith(newLeaf);
        NothingYet(old(values));
        return Done;
      }
      Standing();
      hide Valid, Built, Combinable, Appendable, CeilingOfLog;
      leaves := leaves + [newLeaf];
      r := AddBehind(old(leaves), newLeaf);
      if r.Raised? { Mismatch(); }
    }

    // What Valid says of a tree that is not empty.
    lemma Standing()
      requires Valid() && leaves != []
      ensures rootNode != null && depth.Some? && CeilingOfLog(depth.value, |leaves|)
      ensures Built(sha, rootNode, views, leaves, values, 0, |leaves|) && Combinable(values, 0, |values|)
              && |values| == |leaves|
    {
      hide Matches, TreeOf, AllHashed, LeafValues, CeilingOfLog, Combinable;
    }

    method AddBehind(ghost was: seq<Node>, newLeaf: Node) returns (r: Outcome)
      requires rootNode != null && was != [] && leaves == was + [newLeaf] && newLeaf !in views
      requires Single(newLeaf, newLeaf.value) && |newLeaf.value| == 32
      requires depth.Some? && CeilingOfLog(depth.value, |was|) && Built(sha, rootNode, views, was, values, 0, |was|)
      requires Combinable(values, 0, |values|) && |values| == |was|
      modifies this`depth, this`rootNode, this`values, this`views, views.Keys, newLeaf
      ensures if Appendable(old(values)) then r == Done && Valid() && values == old(values) + [old(newLeaf.value)]
              else r == Raised && values == old(values)
    {
      hide Built, Combinable, Placed, Appendable, Split, IsPower, CeilingOfLog;
      AppendableLong(values);
      var ok, cur := FindPlace(was);
      if ok {
        r := PutBehind(was, cur, newLeaf);
      } else {
        r := Raised;
      }
    }

    method StartWith(newLeaf: Node)
      requires leaves == [newLeaf] && Single(newLeaf, newLeaf.value)
      modifies this`depth, this`rootNode, this`values, this`views
      ensures Valid() && values == [newLeaf.value]
    {
      rootNode, depth := newLeaf, Some(0);
      values, views := [newLeaf.value], map[newLeaf := View(null, null, null, newLeaf.value, 0, 1)];
      FirstLeaf(sha, newLeaf, leaves, values);
      hide Built, Combinable, CeilingOfLog;
    }

    // A leaf that is in the list and not in the tree.
    lemma Mismatch()
      requires |leaves| != |values|
      ensures !Valid()
    {
      hide Matches, TreeOf, AllHashed, LeafValues, CeilingOfLog, Combinable;
    }

    // The loop of add, which goes down the right side of the tree.
    method FindPlace(ghost was: seq<Node>) returns (ok: bool, cur: Node)
      requires rootNode != null && was != [] && |leaves| == |was| + 1
      requires depth.Some? && CeilingOfLog(depth.value, |was|) && Built(sha, rootNode, views, was, values, 0, |was|)
      ensures ok <==> IsPower(|was|) || (|was| > 1 && IsPower(|was| - Split(|was|)))
      ensures ok ==> Placed(views, rootNode, |was|, cur) && (IsPower(|was|) <==> cur == rootNode)
    {
      hide Split, Placed, IsPower, Built, TreeOf, Matches, JoinsAt;
      BuiltTree(sha, rootNode, views, was, values);
      var n := |leaves| - 1;
      LeftSize(n, depth.value);
      RightOfRoot(views, was, rootNode, n);
      var ltreeSize := if depth.value == 0 then 0 else Pow(2, depth.value - 1);
      var size, isFloat := n, false;
      cur := rootNode;
      BitTrick(n);
      while BitAnd(size, size - 1) != 0
        invariant size >= 1 && (BitAnd(size, size - 1) == 0 <==> IsPower(size))
        invariant if isFloat then n > 1 && !IsPower(n) && size == n - Split(n) && cur == views[rootNode].right
                  else size == n && cur == rootNode
        decreases if isFloat then 0 else 1
      {
        if isFloat {
          return false, cur;
        }
        cur := RightIn(views, cur);
        size := size - ltreeSize;
        isFloat := true;
        BitTrick(size);
      }
      ok := true;
      JoinsHere(views, rootNode, n, cur);
      JoinPlace(views, was, rootNode, n, cur);
    }

    method RightIn(ghost v: Views, x: Node) returns (right: Node)
      requires Matches(v) && x in v && v[x].right != null
      ensures right == v[x].right
    {
      right := x.right;
    }

    // The new node in place of cur, and its hash and those above it.
    method PutBehind(ghost was: seq<Node>, cur: Node, newLeaf: Node) returns (r: Outcome)
      requires rootNode != null && was != [] && leaves == was + [newLeaf] && newLeaf !in views
      requires Single(newLeaf, newLeaf.value) && |newLeaf.value| == 32
      requires depth.Some? && CeilingOfLog(depth.value, |was|) && Built(sha, rootNode, views, was, values, 0, |was|)
      requires Placed(views, rootNode, |was|, cur) && Combinable(values, 0, |values|)
      requires IsPower(|was|) <==> cur == rootNode
      modifies this`depth, this`rootNode, this`values, this`views, views.Keys, newLeaf
      ensures r.Done? <==> (|was| == 1 ==> |old(values)[0]| == 32)
      ensures r.Done? ==> Valid() && values == old(values) + [old(newLeaf.value)]
      ensures !r.Done? ==> r.Raised? && values == old(values)
    {
      hide Split, Placed, IsPower, Built, Combinable, AllBut, Matches, CeilingOfLog, Grown;
      PlacedNodes(views, was, rootNode, cur);
      CurLength(sha, rootNode, views, was, values, cur);
      MatchesBuilt(sha, rootNode, views, was, values);
      ghost var x := newLeaf.value;
      var newNode := new Node(cur, newLeaf, []);
      if |values| == 1 ==> |values[0]| == 32 {
        GrownStands(sha, rootNode, views, was, values, cur, newLeaf, newNode, x);
      }
      DeeperBy(|was|, depth.value, cur == rootNode);
      var length := PutIn(cur, newLeaf, newNode);
      // The first round of fix_up, where combine_hashes can raise.
      if length != 32 {
        return Raised;
      }
      values := values + [x];
      FixUp(newNode);
      r := Done;
    }

    // The new node in place of cur, under its parent or as the new root. How long the value of cur is.
    method PutIn(cur: Node, newLeaf: Node, newNode: Node) returns (length: nat)
      requires rootNode != null && depth.Some? && Matches(views) && cur in views && newLeaf !in views
               && newNode !in views
      requires views[cur].parent == (if cur == rootNode then null else rootNode) && rootNode in views
               && newLeaf != newNode
      requires Single(newLeaf, newLeaf.value) && newNode.left == cur && newNode.right == newLeaf
               && newNode.parent == null
      requires newNode.value == []
      modifies this`depth, this`rootNode, this`views, views.Keys, newLeaf, newNode
      ensures views == Grown(old(views), cur, newLeaf, newNode, old(newLeaf.value)) && Matches(views)
      ensures rootNode == (if cur == old(rootNode) then newNode else old(rootNode))
      ensures depth == Some(if cur == old(rootNode) then old(depth).value + 1 else old(depth).value)
      ensures length == |old(views)[cur].value|
    {
      hide Matches, Grown, Single;
      ValueNow(views, cur);
      length := |cur.value|;
      var parent := ParentIn(views, cur);
      ghost var grown := Link(views, cur, newLeaf, newNode, parent);
      Adopt(grown);
      if parent == null {
        depth, rootNode := Some(depth.value + 1), newNode;
      }
    }

    lemma ValueNow(v: Views, x: Node)
      requires Matches(v) && x in v
      ensures x.value == v[x].value
    {
    }

    method SetParent(ghost v: Views, x: Node, parent: Node?) returns (ghost w: Views)
      requires Matches(v) && x in v
      modifies x`parent
      ensures w == WithParent(v, x, parent) && Matches(w)
    {
      x.parent := parent;
      w := WithParent(v, x, parent);
    }

    // The new node under its parent, if there is one.
    method Hang(ghost v: Views, node: Node, parent: Node?) returns (ghost w: Views)
      requires Matches(v) && node in v && (parent != null ==> parent in v)
      modifies node, if parent != null then {parent} else {}
      ensures w == WithRight(WithParent(v, node, parent), parent, node) && Matches(w)
    {
      node.parent := parent;
      w := WithParent(v, node, parent);
      if parent != null {
        parent.right := node;
      }
      w := WithRight(w, parent, node);
    }

    // The links of the new node.
    method Link(ghost v: Views, cur: Node, newLeaf: Node, newNode: Node, parent: Node?) returns (ghost w: Views)
      requires Matches(v) && cur in v && newLeaf !in v && newNode !in v && newLeaf != newNode
      requires parent == v[cur].parent && parent != cur && (parent != null ==> parent in v)
      requires Single(newLeaf, newLeaf.value) && newNode.left == cur && newNode.right == newLeaf
               && newNode.parent == null
      requires newNode.value == []
      modifies cur, newLeaf, newNode, if parent != null then {parent} else {}
      ensures w == Grown(v, cur, newLeaf, newNode, old(newLeaf.value)) && Matches(w)
    {
      MatchesUnattached(v, cur, newLeaf, newNode);
      hide WithParent, WithRight, Unattached, Matches;
      w := Unattached(v, cur, newLeaf, newNode, newLeaf.value);
      w := Hang(w, newNode, parent);
      w := SetParent(w, cur, newNode);
      w := SetParent(w, newLeaf, newNode);
    }

    method Adopt(ghost w: Views)
      requires Matches(w)
      modifies this`views
      ensures views == w && Matches(views)
    {
      views := w;
    }

    method SetLeaf(index: nat, x: Bytes) returns (parent: Node?)
      requires Valid() && index < |leaves| && |x| == 32
      modifies this`values, this`views, views.Keys
      ensures views.Keys == old(views.Keys) && values == old(values)[index := x] && Matches(views)
      ensures rootNode != null && AllBut(sha, rootNode, views, leaves, values, parent)
    {
      hide Built, Combinable, AllBut, WithValue, Matches;
      ghost var was := views;
      var leaf := leaves[index];
      LeafUpdate(was, sha, leaves, values, rootNode, index, x);
      MatchesBuilt(sha, rootNode, was, leaves, values);
      parent := ParentIn(was, leaf);
      Store(leaf, x);
      values := values[index := x];
    }

    /** fix_up: rehashing the ancestors of a changed node restores the whole tree. */
    method FixUp(start: Node?)
      requires depth.Some? && CeilingOfLog(depth.value, |leaves|)
      requires rootNode != null && Matches(views) && AllBut(sha, rootNode, views, leaves, values, start)
      modifies this`views, views.Keys
      ensures Valid() && views.Keys == old(views.Keys)
    {
      hide AllBut, Built, Combinable, Matches;
      var node := start;
      while node != null
        invariant views.Keys == old(views.Keys) && Matches(views) && AllBut(sha, rootNode, views, leaves, values, node)
        decreases Height(views, node, |leaves|)
      {
        node := Rehash(node);
      }
      Finished(sha, rootNode, views, leaves, values);
    }

    // One round of fix_up.
    method Rehash(node: Node) returns (next: Node?)
      requires rootNode != null && Matches(views) && AllBut(sha, rootNode, views, leaves, values, node)
      modifies this`views, views.Keys
      ensures views.Keys == old(views.Keys) && Matches(views) && AllBut(sha, rootNode, views, leaves, values, next)
      ensures 0 <= Height(views, next, |leaves|) < old(Height(views, node, |leaves|))
    {
      hide AllBut, WithValue, Combine, Matches;
      NodeUpdate(sha, rootNode, views, leaves, values, node);
      next := ParentIn(views, node);
      RecomputeValue(node);
    }

    method ParentIn(ghost v: Views, x: Node) returns (parent: Node?)
      requires Matches(v) && x in v
      ensures parent == v[x].parent
    {
      parent := x.parent;
    }

    // recompute_value: combine_hashes accepts the children's values.
    method RecomputeValue(node: Node)
      requires Matches(views) && node in views
      requires var l, r := views[node].left, views[node].right;
               l != null && r != null && l in views && r in views && |views[l].value| == 32 && |views[r].value| == 32
      modifies this`views, node`value
      ensures var v := old(views);
              && Matches(views) && views == WithValue(v, node,
                                                      Combine(sha, v[v[node].left].value, v[v[node].right].value))
              && node.value == sha([1] + v[v[node].left].value + v[v[node].right].value)
    {
      hide Combine, WithValue;
      var l, r := node.left, node.right;
      CombineMeans(sha, l.value, r.value);
      assert l.value == views[l].value && r.value == views[r].value;
      Store(node, Combine(sha, l.value, r.value));
    }

    method Store(x: Node, value: Bytes)
      requires Matches(views) && x in views
      modifies this`views, x`value
      ensures Matches(views) && views == WithValue(old(views), x, value) && x.value == value
    {
      x.value := value;
      views := WithValue(views, x, value);
    }
  }

  lemma NothingToCombine(values: seq<Bytes>)
    ensures Combinable(values, 0, 0)
  {
  }

  // How far a node is from the root at most.
  ghost function Height(v: Views, x: Node?, n: nat): int {
    if x == null || x !in v then 0 else 1 + n - v[x].size
  }

  // The whole tree stands, but for the hash of one node (none, if null).
  ghost predicate AllBut(sha: Hash, root: Node, v: Views, leaves: seq<Node>, values: seq<Bytes>, but: Node?) {
    && leaves != [] && |values| == |leaves| && TreeOf(v, leaves, root, 0, |leaves|)
    && LeafValues(v, leaves, values, 0, |leaves|) && Combinable(values, 0, |leaves|)
    && HashedBut(v, sha, but) && (but != null ==> but in v && v[but].size > 1)
  }

  lemma WithValueView(v: Views, x: Node, value: Bytes)
    requires x in v
    ensures WithValue(v, x, value).Keys == v.Keys
    ensures forall y :: y in v ==> WithValue(v, x, value)[y] == if y == x then v[x].(value := value) else v[y]
  {
  }

  lemma MatchesBuilt(sha: Hash, root: Node, v: Views, leaves: seq<Node>, values: seq<Bytes>)
    requires Built(sha, root, v, leaves, values, 0, |leaves|)
    ensures Matches(v)
  {
  }

  lemma Finished(sha: Hash, root: Node, v: Views, leaves: seq<Node>, values: seq<Bytes>)
    requires AllBut(sha, root, v, leaves, values, null) && Matches(v)
    ensures leaves != [] && Built(sha, root, v, leaves, values, 0, |leaves|) && Combinable(values, 0, |leaves|)
  {
    hide TreeOf, LeafValues, Combinable, Hashed, Matches;
  }

  lemma NodeUpdate(sha: Hash, root: Node, v: Views, leaves: seq<Node>, values: seq<Bytes>, x: Node)
    requires AllBut(sha, root, v, leaves, values, x)
    ensures x in v && v[x].left != null && v[x].right != null && v[x].left in v && v[x].right in v
    ensures |v[v[x].left].value| == 32 && |v[v[x].right].value| == 32
    ensures AllBut(sha, root, WithValue(v, x, Combine(sha, v[v[x].left].value, v[v[x].right].value)), leaves, values,
                   v[x].parent)
    ensures var w := WithValue(v, x, Combine(sha, v[v[x].left].value, v[v[x].right].value));
            w.Keys == v.Keys && 0 <= Height(w, v[x].parent, |leaves|) < Height(v, x, |leaves|)
  {
    hide LeafValues, Combinable, TreeOf, HashedBut, Combine, WithValue;
    var n := |leaves|;
    InnerNode(v, sha, leaves, values, root, x);
    ParentOf(v, leaves, root, n, x);
    var value := Combine(sha, v[v[x].left].value, v[v[x].right].value);
    WithValueTree(v, leaves, root, 0, n, x, value);
    ShapesOf(v, leaves, root, 0, n);
    WithValueHashed(v, sha, leaves, 0, n, x, value);
    InnerUpdate(v, leaves, root, values, x, value);
    WithValueView(v, x, value);
    if v[x].parent != null { ParentOf(v, leaves, root, n, v[x].parent); }
  }

  lemma ShapesOf(v: Views, leaves: seq<Node>, root: Node, b: nat, n: nat)
    requires TreeOf(v, leaves, root, b, n)
    ensures AllShaped(v, leaves, b, n)
  {
  }

  lemma InnerUpdate(v: Views, leaves: seq<Node>, root: Node, values: seq<Bytes>, x: Node, value: Bytes)
    requires TreeOf(v, leaves, root, 0, |leaves|) && |values| == |leaves| && LeafValues(v, leaves, values, 0, |leaves|)
    requires x in v && v[x].size > 1
    ensures LeafValues(WithValue(v, x, value), leaves, values, 0, |leaves|)
  {
    hide AllShaped, AllLinked;
  }

  lemma LeafUpdate(v: Views, sha: Hash, leaves: seq<Node>, values: seq<Bytes>, root: Node, index: nat, x: Bytes)
    requires Built(sha, root, v, leaves, values, 0, |leaves|) && Combinable(values, 0, |leaves|)
             && index < |leaves| && |x| == 32
    ensures |values| == |leaves| && leaves[index] in v
    ensures WithValue(v, leaves[index], x).Keys == v.Keys
    ensures AllBut(sha, root, WithValue(v, leaves[index], x), leaves, values[index := x], v[leaves[index]].parent)
  {
    hide AllShaped, AllLinked, HasLeaves, Combinable, LeafValues, Hashed;
    var leaf, n := leaves[index], |leaves|;
    LeafHere(v, leaves, root, n, index);
    WithValueTree(v, leaves, root, 0, n, leaf, x);
    ParentOf(v, leaves, root, n, leaf);
    LeafValuesUpdate(v, leaves, root, values, index, x);
    StillCombinable(values, index, x);
    LeafHashed(v, sha, leaf, x);
    WithValueHashed(v, sha, leaves, 0, n, leaf, x);
    WithValueView(v, leaf, x);
    hide HashedBut, TreeOf, WithValue;
  }

  lemma StillCombinable(values: seq<Bytes>, index: nat, x: Bytes)
    requires index < |values| && Combinable(values, 0, |values|) && |x| == 32
    ensures Combinable(values[index := x], 0, |values|)
  {
  }

  lemma LeafHashed(v: Views, sha: Hash, leaf: Node, x: Bytes)
    requires leaf in v && v[leaf].size == 1 && AllHashed(v, sha)
    ensures HashedBut(v, sha, leaf) && Hashed(WithValue(v, leaf, x), sha, leaf)
  {
  }

  lemma LeafHere(v: Views, leaves: seq<Node>, root: Node, n: nat, i: nat)
    requires TreeOf(v, leaves, root, 0, n) && i < n
    ensures n <= |leaves| && leaves[i] in v && v[leaves[i]].begin == i && v[leaves[i]].size == 1
  {
    hide AllShaped, AllLinked;
  }

  lemma LeafValuesUpdate(v: Views, leaves: seq<Node>, root: Node, values: seq<Bytes>, index: nat, x: Bytes)
    requires TreeOf(v, leaves, root, 0, |leaves|) && |values| == |leaves| && LeafValues(v, leaves, values, 0, |leaves|)
    requires index < |leaves| && leaves[index] in v
    ensures LeafValues(WithValue(v, leaves[index], x), leaves, values[index := x], 0, |leaves|)
  {
    hide AllShaped, AllLinked;
    forall i | 0 <= i < |leaves|
      ensures leaves[i] in v && WithValue(v, leaves[index], x)[leaves[i]].value == values[index := x][i]
    {
      assert leaves[i] in v && v[leaves[i]].begin == i;
    }
  }
}
