// The receipt accumulator: a Merkle tree whose pair hash sorts its two inputs
// and which carries an odd node up unpaired. Digests are numbers; keccak is a
// parameter `h`, assumed collision-free on sorted pairs where a proof needs it.
module Merkle {
  import opened Common

  type Digest = nat
  type Hash = (Digest, Digest) -> Digest

  const EMPTY_ROOT: Digest := 0

  function PairHash(h: Hash, a: Digest, b: Digest): Digest {
    if a <= b then h(a, b) else h(b, a)
  }

  ghost predicate CollisionFree(h: Hash) {
    forall a, b, c, d :: a <= b && c <= d && h(a, b) == h(c, d) ==> a == c && b == d
  }

  /** x is not a pair hash: what domain separation gives for leaves. */
  ghost predicate Outside(h: Hash, x: Digest) {
    forall a, b :: h(a, b) != x
  }

  ghost predicate ProperLeaves(h: Hash, leaves: seq<Digest>) {
    forall x <- leaves :: Outside(h, x)
  }

  // ------------------------------------------------ the three functions

  /** Entry k of the level above: a pair hash, or the odd last node carried up. */
  function Parent(h: Hash, level: seq<Digest>, k: nat): Digest
    requires 2 * k < |level|
  {
    if 2 * k + 1 < |level| then PairHash(h, level[2 * k], level[2 * k + 1]) else level[2 * k]
  }

  function NextLevel(h: Hash, level: seq<Digest>): (next: seq<Digest>)
    ensures |next| == (|level| + 1) / 2
  {
    seq((|level| + 1) / 2, k requires 0 <= k < (|level| + 1) / 2 => Parent(h, level, k))
  }

  function RootOf(h: Hash, level: seq<Digest>): Digest
    requires level != []
    decreases |level|
  {
    if |level| == 1 then level[0] else RootOf(h, NextLevel(h, level))
  }

  function MerkleRoot(h: Hash, leaves: seq<Digest>): Digest {
    if leaves == [] then EMPTY_ROOT else RootOf(h, leaves)
  }

  function Sibling(level: seq<Digest>, idx: nat): seq<Digest>
    requires idx < |level|
  {
    if idx % 2 == 1 then [level[idx - 1]]
    else if idx + 1 < |level| then [level[idx + 1]]
    else []
  }

  function ProofFrom(h: Hash, level: seq<Digest>, idx: nat): seq<Digest>
    requires idx < |level|
    decreases |level|
  {
    if |level| == 1 then [] else Sibling(level, idx) + ProofFrom(h, NextLevel(h, level), idx / 2)
  }

  datatype ProofError = LeafIndexOutOfRange

  function MerkleProof(h: Hash, leaves: seq<Digest>, index: int): Result<seq<Digest>, ProofError> {
    if index < 0 || index >= |leaves| then Err(LeafIndexOutOfRange) else Ok(ProofFrom(h, leaves, index))
  }

  function Fold(h: Hash, leaf: Digest, proof: seq<Digest>): Digest
    decreases |proof|
  {
    if proof == [] then leaf else Fold(h, PairHash(h, leaf, proof[0]), proof[1..])
  }

  predicate Verifies(h: Hash, leaf: Digest, proof: seq<Digest>, root: Digest) {
    Fold(h, leaf, proof) == root
  }

  // ------------------------------------------- the loops of the source

  method ComputeRoot(h: Hash, leaves: seq<Digest>) returns (root: Digest)
    ensures root == MerkleRoot(h, leaves)
  {
    if |leaves| == 0 { return EMPTY_ROOT; }
    var level := leaves;
    while |level| > 1
      invariant level != [] && RootOf(h, level) == RootOf(h, leaves)
      decreases |level|
    {
      var next: seq<Digest>, i := [], 0;
      while i < |level|
        invariant i == 2 * |next| && |next| <= (|level| + 1) / 2
        invariant forall k :: 0 <= k < |next| ==> next[k] == Parent(h, level, k)
      {
        next := next + [if i + 1 < |level| then PairHash(h, level[i], level[i + 1]) else level[i]];
        i := i + 2;
      }
      assert next == NextLevel(h, level);
      level := next;
    }
    return level[0];
  }

  lemma Regroup(a: seq<Digest>, b: seq<Digest>, c: seq<Digest>)
    ensures a + (b + c) == (a + b) + c
  {
  }

  /** One level of the proof's walk: the next level, and the sibling on the way if there is one. */
  method ProofLevel(h: Hash, level: seq<Digest>, idx: nat, before: seq<Digest>) returns (next: seq<Digest>, proof: seq<Digest>)
    requires idx < |level|
    ensures next == NextLevel(h, level) && proof == before + Sibling(level, idx)
  {
    var i := 0;
    next, proof := [], before;
    hide PairHash;
    while i < |level|
      invariant i == 2 * |next| && |next| <= (|level| + 1) / 2
      invariant forall k :: 0 <= k < |next| ==> next[k] == Parent(h, level, k)
      invariant proof == if idx < i then before + Sibling(level, idx) else before
    {
      if i + 1 < |level| {
        if i == idx || i + 1 == idx {
          proof := proof + [level[if i == idx then i + 1 else i]];
        }
        next := next + [PairHash(h, level[i], level[i + 1])];
      } else {
        next := next + [level[i]];
      }
      i := i + 2;
    }
  }

  method ComputeProof(h: Hash, leaves: seq<Digest>, index: int) returns (r: Result<seq<Digest>, ProofError>)
    ensures r == MerkleProof(h, leaves, index)
  {
    if index < 0 || index >= |leaves| { return Err(LeafIndexOutOfRange); }
    var proof: seq<Digest>, level, idx := [], leaves, index;
    while |level| > 1
      invariant 0 <= idx < |level|
      invariant proof + ProofFrom(h, level, idx) == ProofFrom(h, leaves, index)
      decreases |level|
    {
      ghost var before := proof;
      var next;
      next, proof := ProofLevel(h, level, idx, proof);
      Regroup(before, Sibling(level, idx), ProofFrom(h, next, idx / 2));
      idx := idx / 2;
      level := next;
    }
    assert proof + ProofFrom(h, level, idx) == proof;
    return Ok(proof);
  }

  method VerifyMerkleProof(h: Hash, leaf: Digest, proof: seq<Digest>, root: Digest) returns (ok: bool)
    ensures ok == Verifies(h, leaf, proof, root)
  {
    var computed := leaf;
    for i := 0 to |proof|
      invariant Fold(h, computed, proof[i..]) == Fold(h, leaf, proof)
    {
      assert proof[i..][1..] == proof[i + 1..];
      computed := PairHash(h, computed, proof[i]);
    }
    return computed == root;
  }

  // ------------------------------------------------ where a list splits

  lemma LevelSplits(h: Hash, level: seq<Digest>, p: nat)
    requires 2 * p <= |level|
    ensures NextLevel(h, level)[..p] == NextLevel(h, level[..2 * p])
    ensures NextLevel(h, level)[p..] == NextLevel(h, level[2 * p..])
  {
    hide PairHash;
    forall k | 0 <= k < |NextLevel(h, level[2 * p..])|
      ensures NextLevel(h, level)[p..][k] == NextLevel(h, level[2 * p..])[k]
    {
    }
  }

  lemma AloneIsRoot(h: Hash, level: seq<Digest>)
    requires level != []
    ensures RootOf(h, level) == RootOf(h, NextLevel(h, level))
  {
    if |level| == 1 {
      assert NextLevel(h, level) == level;
    }
  }

  /**
   * The root without its levels: a list of more than one leaf splits after
   * the largest power of two below its length, and its root hashes the roots
   * of the two parts, the smaller one first.
   */
  lemma {:induction false} RootSplits(h: Hash, xs: seq<Digest>, depth: nat)
    requires Pow2(depth) < |xs| <= 2 * Pow2(depth)
    ensures var l, r := MerkleRoot(h, xs[..Pow2(depth)]), MerkleRoot(h, xs[Pow2(depth)..]);
            MerkleRoot(h, xs) == h(Min(l, r), Max(l, r))
    decreases depth
  {
    var p := Pow2(depth);
    if depth == 0 {
      assert xs[..1] == [xs[0]] && xs[1..] == [xs[1]];
      assert NextLevel(h, xs) == [PairHash(h, xs[0], xs[1])];
      AloneIsRoot(h, xs);
      SmallRoots(h, xs[0]);
      SmallRoots(h, xs[1]);
      SmallRoots(h, PairHash(h, xs[0], xs[1]));
    } else {
      var half, next := Pow2(depth - 1), NextLevel(h, xs);
      LevelSplits(h, xs, half);
      RootSplits(h, next, depth - 1);
      AloneIsRoot(h, xs);
      AloneIsRoot(h, xs[..p]);
      AloneIsRoot(h, xs[p..]);
    }
  }

  /** A lone leaf is its own root, and no leaves have the zero digest. */
  lemma SmallRoots(h: Hash, x: Digest)
    ensures MerkleRoot(h, [x]) == x && MerkleRoot(h, []) == 0
  {
  }

  // -------------------------------------------- every proof verifies

  /** One level: hashing with the sibling gives the entry above. */
  lemma SiblingGivesParent(h: Hash, level: seq<Digest>, idx: nat)
    requires idx < |level|
    ensures Fold(h, level[idx], Sibling(level, idx)) == NextLevel(h, level)[idx / 2]
  {
    var sibling := Sibling(level, idx);
    if sibling != [] {
      assert sibling[1..] == [];
      assert Fold(h, level[idx], sibling) == PairHash(h, level[idx], sibling[0]);
    }
  }

  lemma {:induction false} FoldAppend(h: Hash, v: Digest, p: seq<Digest>, q: seq<Digest>)
    ensures Fold(h, v, p + q) == Fold(h, Fold(h, v, p), q)
    decreases |p|
  {
    if p == [] {
      assert p + q == q;
    } else {
      assert (p + q)[1..] == p[1..] + q;
      FoldAppend(h, PairHash(h, v, p[0]), p[1..], q);
    }
  }

  lemma {:induction false} ProofReachesRoot(h: Hash, level: seq<Digest>, idx: nat)
    requires idx < |level|
    ensures Fold(h, level[idx], ProofFrom(h, level, idx)) == RootOf(h, level)
    decreases |level|
  {
    if |level| > 1 {
      var next := NextLevel(h, level);
      SiblingGivesParent(h, level, idx);
      ProofReachesRoot(h, next, idx / 2);
      FoldAppend(h, level[idx], Sibling(level, idx), ProofFrom(h, next, idx / 2));
    }
  }

  /** Every generated proof verifies, for every leaf, also one carried up odd levels; there is one for each index. */
  lemma EveryProofVerifies(h: Hash, leaves: seq<Digest>, index: int)
    ensures MerkleProof(h, leaves, index).Ok? <==> 0 <= index < |leaves|
    ensures 0 <= index < |leaves| ==>
              Verifies(h, leaves[index], MerkleProof(h, leaves, index).value, MerkleRoot(h, leaves))
  {
    if 0 <= index < |leaves| {
      ProofReachesRoot(h, leaves, index);
    }
  }

  // ------------------------------------- the tree behind a root

  datatype Tree = Leaf(digest: Digest) | Node(left: Tree, right: Tree)

  function TreeHash(h: Hash, t: Tree): Digest {
    match t
    case Leaf(d) => d
    case Node(l, r) => PairHash(h, TreeHash(h, l), TreeHash(h, r))
  }

  /** How many leaves of the tree hold x. */
  function Count(t: Tree, x: Digest): nat {
    match t
    case Leaf(d) => if d == x then 1 else 0
    case Node(l, r) => Count(l, x) + Count(r, x)
  }

  function ParentTree(ts: seq<Tree>, k: nat): Tree
    requires 2 * k < |ts|
  {
    if 2 * k + 1 < |ts| then Node(ts[2 * k], ts[2 * k + 1]) else ts[2 * k]
  }

  function NextTrees(ts: seq<Tree>): (next: seq<Tree>)
    ensures |next| == (|ts| + 1) / 2
  {
    seq((|ts| + 1) / 2, k requires 0 <= k < (|ts| + 1) / 2 => ParentTree(ts, k))
  }

  function TopTree(ts: seq<Tree>): Tree
    requires ts != []
    decreases |ts|
  {
    if |ts| == 1 then ts[0] else TopTree(NextTrees(ts))
  }

  function LeafTrees(leaves: seq<Digest>): (ts: seq<Tree>)
    ensures |ts| == |leaves|
  {
    seq(|leaves|, i requires 0 <= i < |leaves| => Leaf(leaves[i]))
  }

  /** The tree merkleRoot builds over a non-empty list. */
  function TreeOf(leaves: seq<Digest>): Tree
    requires leaves != []
  {
    TopTree(LeafTrees(leaves))
  }

  function Hashes(h: Hash, ts: seq<Tree>): (ds: seq<Digest>)
    ensures |ds| == |ts|
  {
    seq(|ts|, i requires 0 <= i < |ts| => TreeHash(h, ts[i]))
  }

  /** How many leaves of the first n trees hold x. */
  function CountIn(ts: seq<Tree>, n: nat, x: Digest): nat
    requires n <= |ts|
    decreases n
  {
    if n == 0 then 0 else CountIn(ts, n - 1, x) + Count(ts[n - 1], x)
  }

  lemma {:induction false} PairingKeepsLeaves(ts: seq<Tree>, k: nat, x: Digest)
    requires k <= |NextTrees(ts)|
    ensures CountIn(NextTrees(ts), k, x) == CountIn(ts, Min(2 * k, |ts|), x)
    decreases k
  {
    if k > 0 {
      PairingKeepsLeaves(ts, k - 1, x);
      assert NextTrees(ts)[k - 1] == ParentTree(ts, k - 1);
    }
  }

  lemma NextTreesAgree(h: Hash, ts: seq<Tree>, x: Digest)
    ensures Hashes(h, NextTrees(ts)) == NextLevel(h, Hashes(h, ts))
    ensures CountIn(NextTrees(ts), |NextTrees(ts)|, x) == CountIn(ts, |ts|, x)
  {
    PairingKeepsLeaves(ts, |NextTrees(ts)|, x);
    forall k | 0 <= k < |NextTrees(ts)|
      ensures TreeHash(h, ParentTree(ts, k)) == Parent(h, Hashes(h, ts), k)
    {
    }
  }

  lemma {:induction false} TopTreeAgrees(h: Hash, ts: seq<Tree>, x: Digest)
    requires ts != []
    ensures TreeHash(h, TopTree(ts)) == RootOf(h, Hashes(h, ts))
    ensures Count(TopTree(ts), x) == CountIn(ts, |ts|, x)
    decreases |ts|
  {
    if |ts| > 1 {
      NextTreesAgree(h, ts, x);
      TopTreeAgrees(h, NextTrees(ts), x);
    }
  }

  lemma {:induction false} LeafTreesHoldLeaves(leaves: seq<Digest>, n: nat, x: Digest)
    requires n <= |leaves|
    ensures CountIn(LeafTrees(leaves), n, x) == multiset(leaves[..n])[x]
    decreases n
  {
    if n > 0 {
      LeafTreesHoldLeaves(leaves, n - 1, x);
      assert leaves[..n] == leaves[..n - 1] + [leaves[n - 1]];
    }
  }

  lemma RootIsTreeHash(h: Hash, leaves: seq<Digest>)
    requires leaves != []
    ensures MerkleRoot(h, leaves) == TreeHash(h, TreeOf(leaves))
    ensures forall x :: Count(TreeOf(leaves), x) == multiset(leaves)[x]
  {
    assert leaves[..|leaves|] == leaves;
    assert Hashes(h, LeafTrees(leaves)) == leaves;
    forall x: Digest
      ensures MerkleRoot(h, leaves) == TreeHash(h, TreeOf(leaves))
      ensures Count(TreeOf(leaves), x) == multiset(leaves)[x]
    {
      LeafTreesHoldLeaves(leaves, |leaves|, x);
      TopTreeAgrees(h, LeafTrees(leaves), x);
    }
    TopTreeAgrees(h, LeafTrees(leaves), 0);
  }

  // --------------------------------------- the root binds the history

  ghost predicate ProperTree(h: Hash, t: Tree) {
    forall x :: Count(t, x) > 0 ==> Outside(h, x)
  }

  /** Equal up to exchanging the two children of any node. */
  predicate Mirror(t: Tree, u: Tree) {
    match t
    case Leaf(_) => t == u
    case Node(l, r) =>
      u.Node? && ((Mirror(l, u.left) && Mirror(r, u.right)) || (Mirror(l, u.right) && Mirror(r, u.left)))
  }

  lemma SamePair(h: Hash, a: Digest, b: Digest, c: Digest, d: Digest)
    requires CollisionFree(h) && PairHash(h, a, b) == PairHash(h, c, d)
    ensures (a == c && b == d) || (a == d && b == c)
  {
  }

  /** The hash of a tree determines it, up to exchanging children, and nothing less. */
  lemma {:induction false} HashDeterminesTree(h: Hash, t: Tree, u: Tree)
    requires CollisionFree(h) && ProperTree(h, t) && ProperTree(h, u)
    ensures TreeHash(h, t) == TreeHash(h, u) <==> Mirror(t, u)
    decreases t
  {
    match t
    case Leaf(d) =>
      assert Count(t, d) > 0;
    case Node(l, r) =>
      if u.Leaf? {
        assert Count(u, u.digest) > 0;
      } else {
        HashDeterminesTree(h, l, u.left);
        HashDeterminesTree(h, l, u.right);
        HashDeterminesTree(h, r, u.left);
        HashDeterminesTree(h, r, u.right);
        if TreeHash(h, t) == TreeHash(h, u) {
          SamePair(h, TreeHash(h, l), TreeHash(h, r), TreeHash(h, u.left), TreeHash(h, u.right));
        }
      }
  }

  lemma {:induction false} MirrorKeepsLeaves(t: Tree, u: Tree, x: Digest)
    requires Mirror(t, u)
    ensures Count(t, x) == Count(u, x)
    decreases t
  {
    if t.Node? {
      if Mirror(t.left, u.left) && Mirror(t.right, u.right) {
        MirrorKeepsLeaves(t.left, u.left, x);
        MirrorKeepsLeaves(t.right, u.right, x);
      } else {
        MirrorKeepsLeaves(t.left, u.right, x);
        MirrorKeepsLeaves(t.right, u.left, x);
      }
    }
  }

  /** Two histories have the same root exactly when their trees are mirror images. */
  lemma SameRootIff(h: Hash, xs: seq<Digest>, ys: seq<Digest>)
    requires CollisionFree(h) && xs != [] && ys != []
    requires ProperLeaves(h, xs) && ProperLeaves(h, ys)
    ensures MerkleRoot(h, xs) == MerkleRoot(h, ys) <==> Mirror(TreeOf(xs), TreeOf(ys))
  {
    RootIsTreeHash(h, xs);
    RootIsTreeHash(h, ys);
    HashDeterminesTree(h, TreeOf(xs), TreeOf(ys));
  }

  /** Equal roots mean the same leaves, as many times each, whatever the two lengths; the empty list included. */
  lemma RootBindsHistory(h: Hash, xs: seq<Digest>, ys: seq<Digest>)
    requires CollisionFree(h) && Outside(h, EMPTY_ROOT)
    requires ProperLeaves(h, xs) && EMPTY_ROOT !in xs
    requires ProperLeaves(h, ys) && EMPTY_ROOT !in ys
    requires MerkleRoot(h, xs) == MerkleRoot(h, ys)
    ensures multiset(xs) == multiset(ys) && |xs| == |ys|
  {
    if xs != [] && ys != [] {
      SameRootIff(h, xs, ys);
      RootIsTreeHash(h, xs);
      RootIsTreeHash(h, ys);
      forall x: Digest ensures multiset(xs)[x] == multiset(ys)[x] {
        MirrorKeepsLeaves(TreeOf(xs), TreeOf(ys), x);
      }
      assert multiset(xs) == multiset(ys);
      assert |multiset(xs)| == |xs| && |multiset(ys)| == |ys|;
    } else if xs != [] {
      NonEmptyRoot(h, xs);
    } else if ys != [] {
      NonEmptyRoot(h, ys);
    }
  }

  lemma NonEmptyRoot(h: Hash, xs: seq<Digest>)
    requires Outside(h, EMPTY_ROOT) && EMPTY_ROOT !in xs && xs != []
    ensures MerkleRoot(h, xs) != EMPTY_ROOT
  {
    RootIsTreeHash(h, xs);
    var t := TreeOf(xs);
    if t.Leaf? {
      assert Count(t, t.digest) > 0;
      assert t.digest in multiset(xs);
    }
  }

  /** Entry j of a list whose block of 2*w from `start` on has its halves exchanged. */
  function Exchanged(xs: seq<Digest>, start: nat, w: nat, j: nat): Digest
    requires start + 2 * w <= |xs| && j < |xs|
  {
    if start <= j < start + w then xs[j + w] else if start + w <= j < start + 2 * w then xs[j - w] else xs[j]
  }

  /** Exchange the two halves of the i-th block of 2*w leaves. */
  function Exchange(xs: seq<Digest>, w: nat, i: nat): (ys: seq<Digest>)
    requires 2 * w * (i + 1) <= |xs|
    ensures |ys| == |xs|
  {
    Blocks(w, i, 2 * w * i);
    seq(|xs|, j requires 0 <= j < |xs| => Exchanged(xs, 2 * w * i, w, j))
  }

  lemma ExchangeIs(xs: seq<Digest>, w: nat, i: nat, start: nat)
    requires 2 * w * (i + 1) <= |xs| && start == 2 * w * i
    ensures start + 2 * w <= |xs|
    ensures forall j :: 0 <= j < |xs| ==> Exchange(xs, w, i)[j] == Exchanged(xs, start, w, j)
  {
    Blocks(w, i, start);
    hide Exchanged;
  }

  lemma ExchangedParent(h: Hash, xs: seq<Digest>, ys: seq<Digest>, start: nat, w: nat, k: nat)
    requires 2 * start + 4 * w <= |xs| == |ys| && 2 * k < |xs|
    requires forall j :: 0 <= j < |xs| ==> ys[j] == Exchanged(xs, 2 * start, 2 * w, j)
    ensures Parent(h, ys, k) == Exchanged(NextLevel(h, xs), start, w, k)
  {
    hide PairHash;
    assert ys[2 * k] == Exchanged(xs, 2 * start, 2 * w, 2 * k);
    if 2 * k + 1 < |xs| {
      assert ys[2 * k + 1] == Exchanged(xs, 2 * start, 2 * w, 2 * k + 1);
    }
  }

  lemma ExchangeLifts(h: Hash, xs: seq<Digest>, w: nat, i: nat)
    requires 1 <= w && 4 * w * (i + 1) <= |xs|
    ensures 2 * (2 * w) * (i + 1) <= |xs| && 2 * w * (i + 1) <= |NextLevel(h, xs)|
    ensures NextLevel(h, Exchange(xs, 2 * w, i)) == Exchange(NextLevel(h, xs), w, i)
  {
    var start, next := 2 * w * i, NextLevel(h, xs);
    Blocks(w, i, start);
    ExchangeIs(xs, 2 * w, i, 2 * start);
    ExchangeIs(next, w, i, start);
    hide PairHash, Parent, Exchange, Exchanged;
    var ys, zs := Exchange(xs, 2 * w, i), Exchange(next, w, i);
    forall k | 0 <= k < |next| ensures NextLevel(h, ys)[k] == zs[k] {
      ExchangedParent(h, xs, ys, start, w, k);
    }
  }

  lemma Blocks(w: nat, i: nat, start: nat)
    requires start == 2 * w * i
    ensures 2 * w * (i + 1) == start + 2 * w && 2 * (2 * w) * i == 2 * start
    ensures 4 * w * (i + 1) == 2 * (start + 2 * w) && 2 * (2 * w) * (i + 1) == 2 * (start + 2 * w)
  {
  }

  lemma LeavesExchanged(h: Hash, xs: seq<Digest>, i: nat)
    requires 2 * (i + 1) <= |xs|
    ensures NextLevel(h, Exchange(xs, 1, i)) == NextLevel(h, xs)
  {
    var ys := Exchange(xs, 1, i);
    forall k | 0 <= k < |NextLevel(h, xs)| ensures Parent(h, ys, k) == Parent(h, xs, k) {
      if k == i { assert ys[2 * k] == xs[2 * k + 1] && ys[2 * k + 1] == xs[2 * k]; }
    }
  }

  /**
   * What the root does not bind is order: exchanging the two subtrees of any
   * node whose subtrees are complete leaves it unchanged.
   */
  lemma {:induction false} OrderIsNotBound(h: Hash, xs: seq<Digest>, depth: nat, i: nat)
    requires 2 * Pow2(depth) * (i + 1) <= |xs|
    ensures MerkleRoot(h, Exchange(xs, Pow2(depth), i)) == MerkleRoot(h, xs)
    decreases depth
  {
    assert 1 * (i + 1) <= Pow2(depth) * (i + 1) by { MulLe(1, Pow2(depth), i + 1); }
    var ys := Exchange(xs, Pow2(depth), i);
    hide Exchange, NextLevel;
    if depth == 0 {
      LeavesExchanged(h, xs, i);
    } else {
      ExchangeLifts(h, xs, Pow2(depth - 1), i);
      OrderIsNotBound(h, NextLevel(h, xs), depth - 1, i);
    }
  }

  // ------------------------------------- what a proof can be accepted for

  function SubHashes(h: Hash, t: Tree): set<Digest> {
    match t
    case Leaf(d) => {d}
    case Node(l, r) => {TreeHash(h, t)} + SubHashes(h, l) + SubHashes(h, r)
  }

  lemma LeafIsNoPair(h: Hash, d: Digest, v: Digest, s: Digest)
    requires ProperTree(h, Leaf(d))
    ensures PairHash(h, v, s) != d
  {
    assert Count(Leaf(d), d) > 0;
  }

  lemma {:induction false} Descend(h: Hash, t: Tree, v: Digest, s: Digest)
    requires CollisionFree(h) && ProperTree(h, t)
    requires PairHash(h, v, s) in SubHashes(h, t)
    ensures v in SubHashes(h, t)
  {
    match t
    case Leaf(d) =>
      LeafIsNoPair(h, d, v, s);
    case Node(l, r) =>
      SelfIsSubHash(h, l);
      SelfIsSubHash(h, r);
      if PairHash(h, v, s) in SubHashes(h, l) {
        Descend(h, l, v, s);
      } else if PairHash(h, v, s) in SubHashes(h, r) {
        Descend(h, r, v, s);
      } else {
        SamePair(h, v, s, TreeHash(h, l), TreeHash(h, r));
      }
  }

  lemma SelfIsSubHash(h: Hash, t: Tree)
    ensures TreeHash(h, t) in SubHashes(h, t)
  {
  }

  lemma {:induction false} FoldDescends(h: Hash, t: Tree, v: Digest, proof: seq<Digest>)
    requires CollisionFree(h) && ProperTree(h, t)
    requires Fold(h, v, proof) == TreeHash(h, t)
    ensures v in SubHashes(h, t)
    decreases |proof|
  {
    if proof == [] {
      SelfIsSubHash(h, t);
    } else {
      FoldDescends(h, t, PairHash(h, v, proof[0]), proof[1..]);
      Descend(h, t, v, proof[0]);
    }
  }

  /** Every subtree's hash climbs to the top along some proof. */
  lemma {:induction false} Climb(h: Hash, t: Tree, v: Digest) returns (proof: seq<Digest>)
    requires v in SubHashes(h, t)
    ensures Fold(h, v, proof) == TreeHash(h, t)
    decreases t
  {
    if v == TreeHash(h, t) {
      proof := [];
    } else if v in SubHashes(h, t.left) {
      var p := Climb(h, t.left, v);
      proof := p + [TreeHash(h, t.right)];
      FoldAppend(h, v, p, [TreeHash(h, t.right)]);
    } else {
      var p := Climb(h, t.right, v);
      proof := p + [TreeHash(h, t.left)];
      FoldAppend(h, v, p, [TreeHash(h, t.left)]);
    }
  }

  ghost predicate Acceptable(h: Hash, v: Digest, root: Digest) {
    exists proof :: Verifies(h, v, proof, root)
  }

  /** Some proof is accepted for v exactly when v is the hash of a subtree, inner nodes included. */
  lemma AcceptedIff(h: Hash, leaves: seq<Digest>, v: Digest)
    requires CollisionFree(h) && leaves != [] && ProperLeaves(h, leaves)
    ensures Acceptable(h, v, MerkleRoot(h, leaves)) <==> v in SubHashes(h, TreeOf(leaves))
  {
    var t, root := TreeOf(leaves), MerkleRoot(h, leaves);
    RootIsTreeHash(h, leaves);
    if Acceptable(h, v, root) {
      var proof :| Verifies(h, v, proof, root);
      FoldDescends(h, t, v, proof);
    }
    if v in SubHashes(h, t) {
      var proof := Climb(h, t, v);
      assert Verifies(h, v, proof, root);
    }
  }

  lemma {:induction false} SubHashIsLeaf(h: Hash, t: Tree, v: Digest)
    requires Outside(h, v)
    ensures v in SubHashes(h, t) <==> Count(t, v) > 0
  {
    match t
    case Leaf(_) =>
    case Node(l, r) =>
      SubHashIsLeaf(h, l, v);
      SubHashIsLeaf(h, r, v);
  }

  /** So a value that is not itself a pair hash is provable exactly when it is a committed leaf. */
  lemma ProvableIffCommitted(h: Hash, leaves: seq<Digest>, v: Digest)
    requires CollisionFree(h) && leaves != [] && ProperLeaves(h, leaves) && Outside(h, v)
    ensures Acceptable(h, v, MerkleRoot(h, leaves)) <==> v in leaves
  {
    AcceptedIff(h, leaves, v);
    RootIsTreeHash(h, leaves);
    SubHashIsLeaf(h, TreeOf(leaves), v);
  }
}
