/**
 Sorted-pair Merkle trees over (account, balance) leaves and the proof check of `common::merkle`.

 Keccak is any function `h` from byte strings to digests. Collisions of such a function always
 exist, so soundness is not stated as "or a collision exists": `Extract` computes the two
 colliding preimages from the tree and the accepted proof.
 */
module Merkle {
  import opened Numbers
  import opened Arithmetic

  type Bytes = seq<u8>
  type Digest = Bytes32
  type Hash = Bytes -> Digest

  // ---------- Preimages ----------

  /** Little-endian encoding of `x` on `n` bytes. */
  function LittleEndian(x: nat, n: nat): (b: Bytes)
    ensures |b| == n
  {
    if n == 0 then [] else [x % 256] + LittleEndian(x / 256, n - 1)
  }

  function Power256(n: nat): (p: nat)
    ensures p > 0
  {
    if n == 0 then 1 else 256 * Power256(n - 1)
  }

  lemma {:induction false} LittleEndianInjective(x: nat, y: nat, n: nat)
    requires x < Power256(n) && y < Power256(n) && LittleEndian(x, n) == LittleEndian(y, n)
    ensures x == y
  {
    if n > 0 {
      var a, b := LittleEndian(x, n), LittleEndian(y, n);
      assert a[0] == x % 256 && a[1..] == LittleEndian(x / 256, n - 1);
      assert b[0] == y % 256 && b[1..] == LittleEndian(y / 256, n - 1);
      LittleEndianInjective(x / 256, y / 256, n - 1);
    }
  }

  /** The 40 bytes hashed for a leaf. */
  function LeafBytes(account: Pubkey, balance: u64): (b: Bytes)
    ensures |b| == 40
  {
    account.raw + LittleEndian(balance, 8)
  }

  lemma LeafBytesInjective(a: Pubkey, x: u64, b: Pubkey, y: u64)
    requires LeafBytes(a, x) == LeafBytes(b, y)
    ensures a == b && x == y
  {
    assert LeafBytes(a, x)[..32] == a.raw && LeafBytes(b, y)[..32] == b.raw;
    assert LeafBytes(a, x)[32..] == LittleEndian(x, 8) && LeafBytes(b, y)[32..] == LittleEndian(y, 8);
    assert Power256(8) == U64_MAX + 1;
    LittleEndianInjective(x, y, 8);
  }

  /** Lexicographic order on byte strings of one length. */
  predicate AtMost(a: Bytes, b: Bytes)
    requires |a| == |b|
  {
    |a| == 0 || a[0] < b[0] || (a[0] == b[0] && AtMost(a[1..], b[1..]))
  }

  /** The order is total and antisymmetric. */
  lemma {:induction false} AtMostOrders(a: Bytes, b: Bytes)
    requires |a| == |b|
    ensures AtMost(a, b) || AtMost(b, a)
    ensures AtMost(a, b) && AtMost(b, a) ==> a == b
  {
    if |a| > 0 {
      AtMostOrders(a[1..], b[1..]);
      assert a == [a[0]] + a[1..] && b == [b[0]] + b[1..];
    }
  }

  /** The 64 bytes hashed for a node: the smaller child first. */
  function NodeBytes(a: Digest, b: Digest): (r: Bytes)
    ensures |r| == 64
  {
    if AtMost(a, b) then a + b else b + a
  }

  lemma NodeBytesCommute(a: Digest, b: Digest)
    ensures NodeBytes(a, b) == NodeBytes(b, a)
  {
    AtMostOrders(a, b);
  }

  /** A node's bytes determine its two children up to order. */
  lemma NodeBytesDetermine(a: Digest, b: Digest, c: Digest, d: Digest)
    requires NodeBytes(a, b) == NodeBytes(c, d)
    ensures (a == c && b == d) || (a == d && b == c)
  {
    var r := NodeBytes(a, b);
    assert (a == r[..32] && b == r[32..]) || (a == r[32..] && b == r[..32]);
    assert (c == r[..32] && d == r[32..]) || (c == r[32..] && d == r[..32]);
  }

  // ---------- What the preimages are, byte by byte ----------

  /** Account first, then the balance with its lowest byte first. */
  ghost predicate LeafLayout(b: Bytes, account: Pubkey, balance: u64) {
    && |b| == 40 && b[..32] == account.raw
    && forall i | 0 <= i < 8 :: b[32 + i] == balance / Power256(i) % 256
  }

  lemma {:induction false} LittleEndianByte(x: nat, n: nat, i: nat)
    requires i < n
    ensures LittleEndian(x, n)[i] == x / Power256(i) % 256
  {
    if i > 0 {
      LittleEndianByte(x / 256, n - 1, i - 1);
      DivTwice(x, 256, Power256(i - 1));
    }
  }

  /** A balance has one leaf preimage: the one that is hashed. */
  lemma LeafBytesLayout(b: Bytes, account: Pubkey, balance: u64)
    ensures LeafLayout(b, account, balance) <==> b == LeafBytes(account, balance)
  {
    var leaf, tail := LeafBytes(account, balance), LittleEndian(balance, 8);
    forall i | 0 <= i < 8 ensures leaf[32 + i] == tail[i] == balance / Power256(i) % 256 {
      LittleEndianByte(balance, 8, i);
    }
    assert leaf[..32] == account.raw;
    if LeafLayout(b, account, balance) {
      forall i | 0 <= i < 8 ensures b[32..][i] == tail[i] { assert b[32..][i] == b[32 + i]; }
      assert b == b[..32] + b[32..] && b[32..] == tail;
    }
  }

  /** Byte `n` is the first that differs, and `x` is the smaller there. */
  ghost predicate SmallerAt(x: Bytes, y: Bytes, n: nat) { n < |x| && n < |y| && x[..n] == y[..n] && x[n] < y[n] }

  ghost predicate NotAfter(x: Bytes, y: Bytes) { x == y || exists n: nat :: SmallerAt(x, y, n) }

  lemma {:induction false} AtMostGives(a: Bytes, b: Bytes)
    requires |a| == |b| && AtMost(a, b)
    ensures NotAfter(a, b)
  {
    if |a| > 0 {
      if a[0] < b[0] {
        assert SmallerAt(a, b, 0);
      } else {
        AtMostGives(a[1..], b[1..]);
        assert a == [a[0]] + a[1..] && b == [b[0]] + b[1..];
        if a[1..] != b[1..] {
          var n: nat :| SmallerAt(a[1..], b[1..], n);
          assert a[..n + 1] == [a[0]] + a[1..][..n] && b[..n + 1] == [b[0]] + b[1..][..n];
          assert SmallerAt(a, b, n + 1);
        }
      }
    }
  }

  lemma {:induction false} SmallerGives(a: Bytes, b: Bytes, n: nat)
    requires |a| == |b| && SmallerAt(a, b, n)
    ensures AtMost(a, b)
  {
    if n > 0 {
      assert a[0] == a[..n][0] && b[0] == b[..n][0];
      assert a[1..][..n - 1] == a[..n][1..] && b[1..][..n - 1] == b[..n][1..];
      SmallerGives(a[1..], b[1..], n - 1);
    }
  }

  /** The order is the lexicographic one. */
  lemma AtMostMeans(a: Bytes, b: Bytes)
    requires |a| == |b|
    ensures AtMost(a, b) <==> NotAfter(a, b)
  {
    if AtMost(a, b) { AtMostGives(a, b); }
    if a == b { AtMostOrders(a, b); }
    if n: nat :| SmallerAt(a, b, n) { SmallerGives(a, b, n); }
  }

  /** `r` is the two digests one after the other, the one that sorts first in front. */
  ghost predicate SortedPair(r: Bytes, a: Digest, b: Digest) {
    (r == a + b && NotAfter(a, b)) || (r == b + a && NotAfter(b, a))
  }

  /** Two digests have one sorted pair: the one that is hashed. */
  lemma NodeBytesSorted(r: Bytes, a: Digest, b: Digest)
    ensures SortedPair(r, a, b) <==> r == NodeBytes(a, b)
  {
    AtMostMeans(a, b);
    AtMostMeans(b, a);
    AtMostOrders(a, b);
  }

  // ---------- Trees and proofs ----------

  datatype Tree = Leaf(account: Pubkey, balance: u64) | Node(left: Tree, right: Tree)

  function Preimage(h: Hash, t: Tree): Bytes
    decreases t, 0
  {
    match t
    case Leaf(a, x) => LeafBytes(a, x)
    case Node(l, r) => NodeBytes(Root(h, l), Root(h, r))
  }

  function Root(h: Hash, t: Tree): Digest
    decreases t, 1
  {
    h(Preimage(h, t))
  }

  ghost predicate Contains(t: Tree, account: Pubkey, balance: u64) {
    match t
    case Leaf(a, x) => a == account && x == balance
    case Node(l, r) => Contains(l, account, balance) || Contains(r, account, balance)
  }

  /** The preimage whose digest the proof check ends with. */
  function ProofPreimage(h: Hash, proof: seq<Digest>, account: Pubkey, balance: u64): Bytes
    decreases |proof|, 0
  {
    if |proof| == 0 then LeafBytes(account, balance)
    else NodeBytes(Fold(h, proof[..|proof| - 1], account, balance), proof[|proof| - 1])
  }

  /** The digest a proof leads to from its leaf. */
  function Fold(h: Hash, proof: seq<Digest>, account: Pubkey, balance: u64): Digest
    decreases |proof|, 1
  {
    h(ProofPreimage(h, proof, account, balance))
  }

  ghost predicate HashesLeaf(h: Hash, account: Pubkey, balance: u64, d: Digest) {
    exists leaf :: LeafLayout(leaf, account, balance) && d == h(leaf)
  }

  ghost predicate HashesPair(h: Hash, a: Digest, b: Digest, d: Digest) {
    exists r :: SortedPair(r, a, b) && d == h(r)
  }

  lemma LeafHash(h: Hash, account: Pubkey, balance: u64, d: Digest)
    ensures HashesLeaf(h, account, balance, d) <==> d == h(LeafBytes(account, balance))
  {
    LeafBytesLayout(LeafBytes(account, balance), account, balance);
    forall leaf | LeafLayout(leaf, account, balance) ensures leaf == LeafBytes(account, balance) {
      LeafBytesLayout(leaf, account, balance);
    }
  }

  lemma PairHash(h: Hash, a: Digest, b: Digest, d: Digest)
    ensures HashesPair(h, a, b, d) <==> d == h(NodeBytes(a, b))
  {
    NodeBytesSorted(NodeBytes(a, b), a, b);
    forall r | SortedPair(r, a, b) ensures r == NodeBytes(a, b) { NodeBytesSorted(r, a, b); }
  }

  /**
   `levels` leads from the leaf's digest up through the proof: each digest is that of the sorted pair
   of the one below it and its sibling.
   */
  ghost predicate Climbs(h: Hash, levels: seq<Digest>, proof: seq<Digest>, account: Pubkey, balance: u64) {
    && |levels| == |proof| + 1
    && HashesLeaf(h, account, balance, levels[0])
    && forall n | 0 <= n < |proof| :: HashesPair(h, levels[n], proof[n], levels[n + 1])
  }

  /** One more sibling. */
  lemma FoldNext(h: Hash, proof: seq<Digest>, account: Pubkey, balance: u64, n: nat)
    requires n < |proof|
    ensures Fold(h, proof[..n + 1], account, balance) == h(NodeBytes(Fold(h, proof[..n], account, balance), proof[n]))
  {
    assert proof[..n + 1][..n] == proof[..n];
  }

  lemma {:induction false} ClimbsToFold(h: Hash, levels: seq<Digest>, proof: seq<Digest>, account: Pubkey, balance: u64,
                                        n: nat)
    requires Climbs(h, levels, proof, account, balance) && n <= |proof|
    ensures levels[n] == Fold(h, proof[..n], account, balance)
  {
    if n == 0 {
      LeafHash(h, account, balance, levels[0]);
    } else {
      ClimbsToFold(h, levels, proof, account, balance, n - 1);
      FoldNext(h, proof, account, balance, n - 1);
      PairHash(h, levels[n - 1], proof[n - 1], levels[n]);
    }
  }

  lemma FoldClimbs(h: Hash, levels: seq<Digest>, proof: seq<Digest>, account: Pubkey, balance: u64)
    requires |levels| == |proof| + 1
    requires forall n | 0 <= n < |levels| :: levels[n] == Fold(h, proof[..n], account, balance)
    ensures Climbs(h, levels, proof, account, balance)
  {
    assert levels[0] == Fold(h, proof[..0], account, balance) == h(LeafBytes(account, balance));
    LeafHash(h, account, balance, levels[0]);
    forall n | 0 <= n < |proof| ensures HashesPair(h, levels[n], proof[n], levels[n + 1]) {
      FoldNext(h, proof, account, balance, n);
      PairHash(h, levels[n], proof[n], levels[n + 1]);
    }
  }

  /** A proof is good for a root if it climbs to it. */
  ghost predicate Accepted(h: Hash, proof: seq<Digest>, root: Digest, account: Pubkey, balance: u64) {
    exists levels :: Climbs(h, levels, proof, account, balance) && levels[|proof|] == root
  }

  lemma AcceptedIffFold(h: Hash, proof: seq<Digest>, root: Digest, account: Pubkey, balance: u64)
    ensures Accepted(h, proof, root, account, balance) <==> Fold(h, proof, account, balance) == root
  {
    assert proof[..|proof|] == proof;
    var levels := seq(|proof| + 1, n requires 0 <= n <= |proof| => Fold(h, proof[..n], account, balance));
    FoldClimbs(h, levels, proof, account, balance);
    if Accepted(h, proof, root, account, balance) {
      var climb :| Climbs(h, climb, proof, account, balance) && climb[|proof|] == root;
      ClimbsToFold(h, climb, proof, account, balance, |proof|);
    }
  }

  /** The proof check: climb from the leaf, hashing the smaller digest first at every level. */
  method VerifyBalanceProof(h: Hash, proof: seq<Digest>, root: Digest, account: Pubkey, balance: u64) returns (ok: bool)
    ensures ok <==> Accepted(h, proof, root, account, balance)
    ensures ok <==> Fold(h, proof, account, balance) == root
  {
    var computed := h(LeafBytes(account, balance));
    for n := 0 to |proof|
      invariant computed == Fold(h, proof[..n], account, balance)
    {
      var below: Bytes, sibling: Bytes := computed, proof[n];
      computed := h(if AtMost(below, sibling) then below + sibling else sibling + below);
      assert proof[..n + 1][..n] == proof[..n];
    }
    assert proof[..|proof|] == proof;
    AcceptedIffFold(h, proof, root, account, balance);
    return computed == root;
  }

  // ---------- Completeness ----------

  /** The siblings on the way from some leaf for (account, balance) up to the root. */
  function ProofFor(h: Hash, t: Tree, account: Pubkey, balance: u64): Option<seq<Digest>> {
    match t
    case Leaf(a, x) => if a == account && x == balance then Some([]) else None
    case Node(l, r) =>
      match ProofFor(h, l, account, balance)
      case Some(p) => Some(p + [Root(h, r)])
      case None =>
        match ProofFor(h, r, account, balance)
        case Some(p) => Some(p + [Root(h, l)])
        case None => None
  }

  /** Every leaf of a tree of any shape has a proof, and it is accepted whichever side it is on. */
  lemma {:induction false} Complete(h: Hash, t: Tree, account: Pubkey, balance: u64)
    ensures ProofFor(h, t, account, balance).Some? <==> Contains(t, account, balance)
    ensures ProofFor(h, t, account, balance).Some? ==>
              Fold(h, ProofFor(h, t, account, balance).value, account, balance) == Root(h, t)
  {
    match t
    case Leaf(_, _) =>
    case Node(l, r) =>
      Complete(h, l, account, balance);
      Complete(h, r, account, balance);
      NodeBytesCommute(Root(h, r), Root(h, l));
      if ProofFor(h, t, account, balance).Some? {
        var q := ProofFor(h, t, account, balance).value;
        var p := if ProofFor(h, l, account, balance).Some? then ProofFor(h, l, account, balance).value
                 else ProofFor(h, r, account, balance).value;
        assert q[..|q| - 1] == p;
      }
  }

  // ---------- Soundness ----------

  /** What the tree hashes, and what the proof check hashes. */
  ghost function TreePreimages(h: Hash, t: Tree): set<Bytes> {
    {Preimage(h, t)} + (if t.Leaf? then {} else TreePreimages(h, t.left) + TreePreimages(h, t.right))
  }

  ghost function ProofPreimages(h: Hash, proof: seq<Digest>, account: Pubkey, balance: u64): set<Bytes> {
    {ProofPreimage(h, proof, account, balance)} +
    (if |proof| == 0 then {} else ProofPreimages(h, proof[..|proof| - 1], account, balance))
  }

  ghost predicate Collide(h: Hash, x: Bytes, y: Bytes) { x != y && h(x) == h(y) }

  /**
   Walk down from the root, comparing what the tree hashed with what the proof hashed, and stop at
   the first difference. `None` means that there was none all the way to a leaf.
   */
  function Extract(h: Hash, t: Tree, proof: seq<Digest>, account: Pubkey, balance: u64): Option<(Bytes, Bytes)>
    decreases |proof|
  {
    var x, y := Preimage(h, t), ProofPreimage(h, proof, account, balance);
    if x != y then Some((x, y))
    else if |proof| == 0 || t.Leaf? then None
    else
      var front := proof[..|proof| - 1];
      if Fold(h, front, account, balance) == Root(h, t.left) then Extract(h, t.left, front, account, balance)
      else Extract(h, t.right, front, account, balance)
  }

  /** An accepted proof is a proof of a leaf of the tree, or the walk down finds a collision. */
  lemma {:induction false} Sound(h: Hash, t: Tree, proof: seq<Digest>, account: Pubkey, balance: u64)
    requires Fold(h, proof, account, balance) == Root(h, t)
    ensures match Extract(h, t, proof, account, balance)
            case None => Contains(t, account, balance)
            case Some((x, y)) =>
              Collide(h, x, y) && x in TreePreimages(h, t) && y in ProofPreimages(h, proof, account, balance)
    decreases |proof|
  {
    if Preimage(h, t) == ProofPreimage(h, proof, account, balance) {
      if t.Leaf? {
        // A 40-byte preimage was met, so the proof is at its leaf too.
        LeafBytesInjective(t.account, t.balance, account, balance);
      } else {
        var front := proof[..|proof| - 1];
        NodeBytesDetermine(Root(h, t.left), Root(h, t.right), Fold(h, front, account, balance), proof[|proof| - 1]);
        if Fold(h, front, account, balance) == Root(h, t.left) {
          Sound(h, t.left, front, account, balance);
        } else {
          Sound(h, t.right, front, account, balance);
        }
      }
    }
  }

  /** `h` has no collision among the given preimages. */
  ghost predicate InjectiveOn(h: Hash, bs: set<Bytes>) {
    forall x, y | x in bs && y in bs :: h(x) == h(y) ==> x == y
  }

  /** Without a collision among what was actually hashed, acceptance is membership. */
  lemma AcceptedIffContained(h: Hash, t: Tree, account: Pubkey, balance: u64)
    ensures Contains(t, account, balance) ==>
              exists proof :: Fold(h, proof, account, balance) == Root(h, t)
    ensures forall proof |
              && Fold(h, proof, account, balance) == Root(h, t)
              && InjectiveOn(h, TreePreimages(h, t) + ProofPreimages(h, proof, account, balance))
            :: Contains(t, account, balance)
  {
    Complete(h, t, account, balance);
    forall proof |
      && Fold(h, proof, account, balance) == Root(h, t)
      && InjectiveOn(h, TreePreimages(h, t) + ProofPreimages(h, proof, account, balance))
      ensures Contains(t, account, balance)
    {
      Sound(h, t, proof, account, balance);
    }
  }
}
