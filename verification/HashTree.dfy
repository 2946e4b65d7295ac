// The hash tree of myfilesystem.c: a binary heap of 16-byte digests over the
// 256-byte blocks of file_data.
module HashTree {
  import opened Structs
  import opened Bytes
  import opened Memory
  import opened FletcherSum

  // p_index, lc_index and rc_index
  function Parent(n: nat): int { if n % 2 == 1 then n / 2 else n / 2 - 1 }
  function Left(n: nat): nat { 2 * n + 1 }
  function Right(n: nat): nat { 2 * n + 2 }

  function Node(hash: seq<byte>, n: nat): (r: seq<byte>)
    ensures |r| == HASH_LEN
  {
    Window(hash, HASH_LEN * n, HASH_LEN)
  }

  function Block(data: seq<byte>, b: nat): (r: seq<byte>)
    ensures |r| == BLOCK_LEN
  {
    Window(data, BLOCK_LEN * b, BLOCK_LEN)
  }

  /** A store of leaf + 1 blocks, with one node for each block and each inner position. */
  predicate Sized(data: seq<byte>, hash: seq<byte>, leaf: nat) {
    |data| == BLOCK_LEN * (leaf + 1) && |hash| == HASH_LEN * (2 * leaf + 1)
  }

  /** The digest node n should hold: of its stored children, or of its block. */
  function NodeHash(data: seq<byte>, hash: seq<byte>, leaf: nat, n: nat): (r: seq<byte>)
    ensures |r| == HASH_LEN
  {
    if n < leaf then Digest(Node(hash, Left(n)) + Node(hash, Right(n))) else Digest(Block(data, n - leaf))
  }

  predicate Consistent(data: seq<byte>, hash: seq<byte>, leaf: nat, n: nat) {
    Node(hash, n) == NodeHash(data, hash, leaf, n)
  }

  ghost predicate ValidTree(data: seq<byte>, hash: seq<byte>, leaf: nat) {
    forall n: nat :: n < 2 * leaf + 1 ==> Consistent(data, hash, leaf, n)
  }

  /** Where blocks and nodes lie: node n holds 16 bytes of hash_data, the checksum of its block of 256 bytes of
      file_data or of the 32 bytes that its two children hold, the left one first. */
  lemma NodeBytes(data: seq<byte>, hash: seq<byte>, leaf: nat, n: nat)
    requires Sized(data, hash, leaf) && n < 2 * leaf + 1
    ensures |data| == 256 * (leaf + 1) && |hash| == 16 * (2 * leaf + 1)
    ensures Node(hash, n) == hash[16 * n..16 * n + 16]
    ensures NodeHash(data, hash, leaf, n)
         == if n < leaf then Digest(hash[16 * (2 * n + 1)..16 * (2 * n + 3)])
            else Digest(data[256 * (n - leaf)..256 * (n - leaf) + 256])
  {
    hide Digest;
    if n < leaf {
      assert hash[16 * (2 * n + 1)..16 * (2 * n + 3)] == Node(hash, Left(n)) + Node(hash, Right(n));
    }
  }

  /** The recursive Merkle hash, which does not mention the stored tree. */
  ghost function Merkle(data: seq<byte>, leaf: nat, n: nat): (r: seq<byte>)
    requires n < 2 * leaf + 1
    ensures |r| == HASH_LEN
    decreases 2 * leaf - n
  {
    if n < leaf then Digest(Merkle(data, leaf, Left(n)) + Merkle(data, leaf, Right(n)))
    else Digest(Block(data, n - leaf))
  }

  /** Node m is n or an ancestor of n. */
  predicate Above(m: nat, n: nat)
    decreases n
  {
    m == n || (n > 0 && Above(m, Parent(n)))
  }

  lemma ParentInvertsChildren(n: nat)
    ensures Parent(Left(n)) == n && Parent(Right(n)) == n
    ensures n > 0 ==> Parent(n) >= 0 && (n == Left(Parent(n)) || n == Right(Parent(n)))
    ensures Parent(0) == -1
  {
  }

  lemma {:induction false} AboveIsNotLarger(m: nat, n: nat)
    requires Above(m, n)
    ensures m <= n
    decreases n
  {
    if m != n {
      AboveIsNotLarger(m, Parent(n));
    }
  }

  lemma {:induction false} AboveParent(m: nat, n: nat)
    requires Above(m, n) && m > 0
    ensures Above(Parent(m), n)
    decreases n
  {
    if m != n {
      AboveParent(m, Parent(n));
    }
  }

  lemma {:induction false} AboveTransitive(l: nat, m: nat, n: nat)
    requires Above(l, m) && Above(m, n)
    ensures Above(l, n)
    decreases n
  {
    if m != n {
      AboveTransitive(l, m, Parent(n));
    }
  }

  lemma {:induction false} EveryNodeHasALeaf(leaf: nat, m: nat) returns (b: nat)
    requires m < 2 * leaf + 1
    ensures b <= leaf && Above(m, leaf + b)
    decreases 2 * leaf - m
  {
    if m >= leaf {
      b := m - leaf;
    } else {
      b := EveryNodeHasALeaf(leaf, Left(m));
      AboveParent(Left(m), leaf + b);
    }
  }

  // Writing one node

  function SetNode(hash: seq<byte>, n: nat, d: seq<byte>): (r: seq<byte>)
    ensures |r| == |hash|
  {
    Overwrite(hash, HASH_LEN * n, d)
  }

  lemma NodeOfSetNode(hash: seq<byte>, n: nat, d: seq<byte>, m: nat)
    requires |d| == HASH_LEN && HASH_LEN * n + HASH_LEN <= |hash|
    ensures Node(SetNode(hash, n, d), m) == if m == n then d else Node(hash, m)
  {
    if m == n {
      WindowOfOverwrite(hash, HASH_LEN * n, d);
    } else {
      assert m < n ==> HASH_LEN * m + HASH_LEN <= HASH_LEN * n;
      assert m > n ==> HASH_LEN * n + HASH_LEN <= HASH_LEN * m;
      WindowBeside(hash, HASH_LEN * n, d, HASH_LEN * m, HASH_LEN);
    }
  }

  lemma ConsistentBeside(data: seq<byte>, hash: seq<byte>, leaf: nat, n: nat, d: seq<byte>, m: nat)
    requires |d| == HASH_LEN && HASH_LEN * n + HASH_LEN <= |hash|
    requires m != n && (m < leaf ==> n != Left(m) && n != Right(m))
    ensures Consistent(data, SetNode(hash, n, d), leaf, m) == Consistent(data, hash, leaf, m)
  {
    hide Node, SetNode, Digest, Block;
    NodeOfSetNode(hash, n, d, m);
    NodeOfSetNode(hash, n, d, Left(m));
    NodeOfSetNode(hash, n, d, Right(m));
  }

  lemma ConsistentAfterWrite(data: seq<byte>, hash: seq<byte>, leaf: nat, n: nat)
    requires HASH_LEN * n + HASH_LEN <= |hash|
    ensures Consistent(data, SetNode(hash, n, NodeHash(data, hash, leaf, n)), leaf, n)
  {
    hide Node, SetNode, Digest, Block;
    var d := NodeHash(data, hash, leaf, n);
    NodeOfSetNode(hash, n, d, n);
    NodeOfSetNode(hash, n, d, Left(n));
    NodeOfSetNode(hash, n, d, Right(n));
  }

  // A valid tree is the Merkle tree, and there is only one

  lemma {:induction false} ValidNodeIsMerkle(data: seq<byte>, hash: seq<byte>, leaf: nat, n: nat)
    requires ValidTree(data, hash, leaf) && n < 2 * leaf + 1
    ensures Node(hash, n) == Merkle(data, leaf, n)
    decreases 2 * leaf - n
  {
    hide Node, Digest, Block;
    assert Consistent(data, hash, leaf, n);
    if n < leaf {
      ValidNodeIsMerkle(data, hash, leaf, Left(n));
      ValidNodeIsMerkle(data, hash, leaf, Right(n));
    }
  }

  /** Every node matches its stored children or its block exactly when every node is the recursive Merkle hash. */
  lemma ValidTreeIffMerkle(data: seq<byte>, hash: seq<byte>, leaf: nat)
    ensures ValidTree(data, hash, leaf)
       <==> forall n: nat :: n < 2 * leaf + 1 ==> Node(hash, n) == Merkle(data, leaf, n)
  {
    hide Node, Digest, Block;
    if ValidTree(data, hash, leaf) {
      forall n: nat | n < 2 * leaf + 1 ensures Node(hash, n) == Merkle(data, leaf, n) {
        ValidNodeIsMerkle(data, hash, leaf, n);
      }
    }
  }

  lemma ByteOfNode(hash: seq<byte>, leaf: nat, k: nat)
    requires |hash| == HASH_LEN * (2 * leaf + 1) && k < |hash|
    ensures k / HASH_LEN < 2 * leaf + 1
    ensures hash[k] == Node(hash, k / HASH_LEN)[k % HASH_LEN]
  {
  }

  lemma ValidTreeUnique(data: seq<byte>, hash: seq<byte>, hash': seq<byte>, leaf: nat)
    requires |hash| == |hash'| == HASH_LEN * (2 * leaf + 1)
    requires ValidTree(data, hash, leaf) && ValidTree(data, hash', leaf)
    ensures hash == hash'
  {
    hide ValidTree, Node, Merkle;
    forall k | 0 <= k < |hash| ensures hash[k] == hash'[k] {
      ByteOfNode(hash, leaf, k);
      ByteOfNode(hash', leaf, k);
      ValidNodeIsMerkle(data, hash, leaf, k / HASH_LEN);
      ValidNodeIsMerkle(data, hash', leaf, k / HASH_LEN);
    }
  }

  // The incremental update

  /** Recompute inner node n and all its ancestors. */
  function PathUpdate(hash: seq<byte>, n: int): (r: seq<byte>)
    requires n >= -1
    ensures |r| == |hash|
    decreases n + 1
  {
    if n < 0 then hash
    else PathUpdate(SetNode(hash, n, Digest(Node(hash, Left(n)) + Node(hash, Right(n)))), Parent(n))
  }

  function BlockUpdate(data: seq<byte>, hash: seq<byte>, leaf: nat, b: nat): (r: seq<byte>)
    ensures |r| == |hash|
  {
    PathUpdate(SetNode(hash, leaf + b, Digest(Block(data, b))), Parent(leaf + b))
  }

  function RangeUpdate(data: seq<byte>, hash: seq<byte>, leaf: nat, first: nat, last: int): (r: seq<byte>)
    ensures |r| == |hash|
    decreases last - first + 1
  {
    if first > last then hash else RangeUpdate(data, BlockUpdate(data, hash, leaf, first), leaf, first + 1, last)
  }

  /** The hash buffer after compute_hash_block_range(offset, length). */
  function Rehash(data: seq<byte>, hash: seq<byte>, leaf: nat, offset: nat, length: int): (r: seq<byte>)
    ensures |r| == |hash|
  {
    if length <= 0 then hash else RangeUpdate(data, hash, leaf, offset / BLOCK_LEN, (offset + length - 1) / BLOCK_LEN)
  }

  predicate OnPath(m: nat, n: int) {
    n >= 0 && Above(m, n)
  }

  lemma {:induction false} PathUpdateAt(data: seq<byte>, hash: seq<byte>, leaf: nat, n: int, m: nat)
    requires |hash| == HASH_LEN * (2 * leaf + 1) && -1 <= n < leaf
    ensures if OnPath(m, n) then Consistent(data, PathUpdate(hash, n), leaf, m)
            else Node(PathUpdate(hash, n), m) == Node(hash, m)
    decreases n + 1
  {
    hide Node, SetNode, Digest, Block;
    if n >= 0 {
      var d := Digest(Node(hash, Left(n)) + Node(hash, Right(n)));
      var h := SetNode(hash, n, d);
      PathUpdateAt(data, h, leaf, Parent(n), m);
      NodeOfSetNode(hash, n, d, m);
      if m == n {
        OnPathIsNotLarger(n, Parent(n));
        ConsistentAfterWrite(data, hash, leaf, n);
        PathUpdateBelow(data, h, leaf, Parent(n), n);
      }
    }
  }

  lemma OnPathIsNotLarger(m: nat, n: int)
    requires n < m
    ensures !OnPath(m, n)
  {
    if OnPath(m, n) {
      AboveIsNotLarger(m, n);
    }
  }

  /** A node below the path, whose children are below it too, stays consistent. */
  lemma {:induction false} PathUpdateBelow(data: seq<byte>, hash: seq<byte>, leaf: nat, n: int, m: nat)
    requires |hash| == HASH_LEN * (2 * leaf + 1) && -1 <= n < leaf && n < m
    requires Consistent(data, hash, leaf, m)
    ensures Consistent(data, PathUpdate(hash, n), leaf, m)
    decreases n + 1, 1
  {
    hide Node, SetNode, Digest, Block;
    if n >= 0 {
      var d := Digest(Node(hash, Left(n)) + Node(hash, Right(n)));
      ConsistentBeside(data, hash, leaf, n, d, m);
      PathUpdateBelow(data, SetNode(hash, n, d), leaf, Parent(n), m);
    }
  }

  /** After the update of block b, its leaf and every ancestor match; every node that matched before still does. */
  lemma {:induction false} BlockUpdateAt(data: seq<byte>, hash: seq<byte>, leaf: nat, b: nat, m: nat)
    requires |hash| == HASH_LEN * (2 * leaf + 1) && b <= leaf
    ensures Above(m, leaf + b) || Consistent(data, hash, leaf, m) ==> Consistent(data, BlockUpdate(data, hash, leaf, b), leaf, m)
    ensures !Above(m, leaf + b) ==> Node(BlockUpdate(data, hash, leaf, b), m) == Node(hash, m)
  {
    hide Node, SetNode, Digest, Block, PathUpdate;
    var n, d := leaf + b, Digest(Block(data, b));
    var h := SetNode(hash, n, d);
    NodeOfSetNode(hash, n, d, m);
    PathUpdateAt(data, h, leaf, Parent(n), m);
    if m == n {
      ConsistentAfterWrite(data, hash, leaf, n);
      PathUpdateBelow(data, h, leaf, Parent(n), n);
    } else if !Above(m, n) && m < leaf {
      ChildOffPath(m, Left(m), n);
      ChildOffPath(m, Right(m), n);
      NodeOfSetNode(hash, n, d, Left(m));
      NodeOfSetNode(hash, n, d, Right(m));
      PathUpdateAt(data, h, leaf, Parent(n), Left(m));
      PathUpdateAt(data, h, leaf, Parent(n), Right(m));
    }
  }

  lemma ChildOffPath(m: nat, child: nat, n: nat)
    requires child == Left(m) || child == Right(m)
    requires !Above(m, n)
    ensures !Above(child, n)
  {
    ParentInvertsChildren(m);
    if Above(child, n) {
      AboveParent(child, n);
    }
  }

  /** Node m is the leaf of block b or one of its ancestors. */
  predicate AboveBlock(leaf: nat, m: nat, b: nat) {
    Above(m, leaf + b)
  }

  /** Some block of the range lies below node m. */
  ghost predicate Covered(leaf: nat, first: nat, last: int, m: nat) {
    exists b: nat :: first <= b <= last && AboveBlock(leaf, m, b)
  }

  /** The update of a range makes its leaves and all their ancestors match, and spoils no other node. */
  lemma {:induction false} RangeUpdateAt(data: seq<byte>, hash: seq<byte>, leaf: nat, first: nat, last: int, m: nat)
    requires |hash| == HASH_LEN * (2 * leaf + 1) && last <= leaf
    ensures Consistent(data, hash, leaf, m) || Covered(leaf, first, last, m)
        ==> Consistent(data, RangeUpdate(data, hash, leaf, first, last), leaf, m)
    ensures !Covered(leaf, first, last, m) ==> Node(RangeUpdate(data, hash, leaf, first, last), m) == Node(hash, m)
    decreases last - first + 1
  {
    hide Node, SetNode, Digest, Block, PathUpdate, BlockUpdate, Consistent;
    if first <= last {
      var h := BlockUpdate(data, hash, leaf, first);
      BlockUpdateAt(data, hash, leaf, first, m);
      RangeUpdateAt(data, h, leaf, first + 1, last, m);
      assert Covered(leaf, first, last, m) <==> AboveBlock(leaf, m, first) || Covered(leaf, first + 1, last, m);
    }
  }

  /** From arbitrary hash_data, updating block by block leaves a valid tree. */
  lemma AllBlocksUpdate(data: seq<byte>, hash: seq<byte>, leaf: nat)
    requires Sized(data, hash, leaf)
    ensures ValidTree(data, RangeUpdate(data, hash, leaf, 0, leaf), leaf)
  {
    hide Node, Digest, Block, RangeUpdate, Consistent;
    forall m: nat | m < 2 * leaf + 1
      ensures Consistent(data, RangeUpdate(data, hash, leaf, 0, leaf), leaf, m)
    {
      var b := EveryNodeHasALeaf(leaf, m);
      assert AboveBlock(leaf, m, b);
      RangeUpdateAt(data, hash, leaf, 0, leaf, m);
    }
  }

  /** After data became data', updating blocks first..last restores a valid tree
      exactly when no block outside the range changed its checksum. */
  lemma RangeUpdateRestoresIff(data: seq<byte>, data': seq<byte>, hash: seq<byte>, leaf: nat, first: nat, last: int)
    requires Sized(data, hash, leaf) && last <= leaf
    requires ValidTree(data, hash, leaf)
    ensures ValidTree(data', RangeUpdate(data', hash, leaf, first, last), leaf)
       <==> forall b: nat :: b <= leaf && !(first <= b <= last) ==> Digest(Block(data', b)) == Digest(Block(data, b))
  {
    hide Node, Digest, Block, RangeUpdate;
    var r := RangeUpdate(data', hash, leaf, first, last);
    if ValidTree(data', r, leaf) {
      forall b: nat | b <= leaf && !(first <= b <= last)
        ensures Digest(Block(data', b)) == Digest(Block(data, b))
      {
        RangeUpdateAt(data', hash, leaf, first, last, leaf + b);
        LeafNotCovered(leaf, first, last, b);
        assert Consistent(data', r, leaf, leaf + b) && Consistent(data, hash, leaf, leaf + b);
      }
    }
    if forall b: nat :: b <= leaf && !(first <= b <= last) ==> Digest(Block(data', b)) == Digest(Block(data, b)) {
      forall m: nat | m < 2 * leaf + 1 ensures Consistent(data', r, leaf, m) {
        RangeUpdateAt(data', hash, leaf, first, last, m);
        assert Consistent(data, hash, leaf, m);
        if m >= leaf && first <= m - leaf <= last {
          assert AboveBlock(leaf, m, m - leaf);
        } else if m >= leaf {
          assert Digest(Block(data', m - leaf)) == Digest(Block(data, m - leaf));
        }
      }
    }
  }

  lemma LeafNotCovered(leaf: nat, first: nat, last: int, b: nat)
    requires b <= leaf && last <= leaf && !(first <= b <= last)
    ensures !Covered(leaf, first, last, leaf + b)
  {
    var n := leaf + b;
    forall c: nat | first <= c <= last ensures !AboveBlock(leaf, n, c) {
      LeavesUnrelated(leaf, b, c);
    }
  }

  lemma LeavesUnrelated(leaf: nat, b: nat, c: nat)
    requires b <= leaf && c <= leaf && b != c
    ensures !Above(leaf + b, leaf + c)
  {
    if Above(leaf + b, leaf + c) {
      if leaf + c > 0 {
        AboveIsNotLarger(leaf + b, Parent(leaf + c));
      }
      assert false;
    }
  }

  /** If only bytes of [offset, offset + length) changed, compute_hash_block_range restores a valid tree. */
  lemma RehashRestores(data: seq<byte>, data': seq<byte>, hash: seq<byte>, leaf: nat, offset: nat, length: nat)
    requires Sized(data, hash, leaf) && offset + length <= |data|
    requires ValidTree(data, hash, leaf)
    requires SameOutside(data, data', offset, offset + length)
    ensures ValidTree(data', Rehash(data', hash, leaf, offset, length), leaf)
  {
    hide Digest, RangeUpdate, ValidTree;
    if length == 0 {
      assert data' == data;
    } else {
      var first, last := offset / BLOCK_LEN, (offset + length - 1) / BLOCK_LEN;
      forall b: nat | b <= leaf && !(first <= b <= last) ensures Block(data', b) == Block(data, b) {
        WindowSame(data, data', offset, offset + length, BLOCK_LEN * b, BLOCK_LEN);
      }
      RangeUpdateRestoresIff(data, data', hash, leaf, first, last);
    }
  }

  /** The incremental update leaves, byte for byte, the tree that a recomputation from any old contents leaves. */
  lemma RehashIsRecomputation(data: seq<byte>, data': seq<byte>, hash: seq<byte>, other: seq<byte>, leaf: nat,
                              offset: nat, length: nat)
    requires Sized(data, hash, leaf) && |other| == |hash| && offset + length <= |data|
    requires ValidTree(data, hash, leaf)
    requires SameOutside(data, data', offset, offset + length)
    ensures Rehash(data', hash, leaf, offset, length) == RangeUpdate(data', other, leaf, 0, leaf)
    ensures forall full :: |full| == |hash| && ValidTree(data', full, leaf) ==> full == Rehash(data', hash, leaf, offset, length)
  {
    hide RangeUpdate, ValidTree;
    var r := Rehash(data', hash, leaf, offset, length);
    RehashRestores(data, data', hash, leaf, offset, length);
    AllBlocksUpdate(data', other, leaf);
    ValidTreeUnique(data', r, RangeUpdate(data', other, leaf, 0, leaf), leaf);
    forall full | |full| == |hash| && ValidTree(data', full, leaf) ensures full == r {
      ValidTreeUnique(data', full, r, leaf);
    }
  }

  // Verification

  /** What verify_hash_range checks. */
  ghost predicate Verified(data: seq<byte>, hash: seq<byte>, leaf: nat, offset: nat, length: int) {
    length > 0 ==>
      forall b: nat, m: nat :: offset / BLOCK_LEN <= b <= (offset + length - 1) / BLOCK_LEN && AboveBlock(leaf, m, b)
        ==> Consistent(data, hash, leaf, m)
  }

  /** Verification of the whole store succeeds exactly on the Merkle tree of its data. */
  lemma VerifiedWholeIffValid(data: seq<byte>, hash: seq<byte>, leaf: nat)
    requires Sized(data, hash, leaf)
    ensures Verified(data, hash, leaf, 0, |data|) <==> ValidTree(data, hash, leaf)
    ensures Verified(data, hash, leaf, 0, |data|)
       <==> forall n: nat :: n < 2 * leaf + 1 ==> Node(hash, n) == Merkle(data, leaf, n)
  {
    hide Consistent, Node, Merkle;
    assert (|data| - 1) / BLOCK_LEN == leaf;
    if Verified(data, hash, leaf, 0, |data|) {
      forall m: nat | m < 2 * leaf + 1 ensures Consistent(data, hash, leaf, m) {
        var b := EveryNodeHasALeaf(leaf, m);
        assert AboveBlock(leaf, m, b);
      }
    }
    if ValidTree(data, hash, leaf) {
      ValidTreeVerifies(data, hash, leaf, 0, |data|);
    }
    ValidTreeIffMerkle(data, hash, leaf);
  }

  lemma ValidTreeVerifies(data: seq<byte>, hash: seq<byte>, leaf: nat, offset: nat, length: nat)
    requires Sized(data, hash, leaf) && offset + length <= |data|
    requires ValidTree(data, hash, leaf)
    ensures Verified(data, hash, leaf, offset, length)
  {
    hide Consistent;
    if length > 0 {
      forall b: nat, m: nat | offset / BLOCK_LEN <= b <= (offset + length - 1) / BLOCK_LEN && AboveBlock(leaf, m, b)
        ensures Consistent(data, hash, leaf, m)
      {
        AboveIsNotLarger(m, leaf + b);
      }
    }
  }

  /** If only block b changed, the old tree verifies over a range with that block exactly when its checksum is the same. */
  lemma BlockChangeDetected(data: seq<byte>, data': seq<byte>, hash: seq<byte>, leaf: nat, b: nat, offset: nat, length: nat)
    requires Sized(data, hash, leaf) && Sized(data', hash, leaf) && ValidTree(data, hash, leaf)
    requires offset + length <= |data| && length > 0
    requires offset / BLOCK_LEN <= b <= (offset + length - 1) / BLOCK_LEN
    requires SameOutside(data, data', BLOCK_LEN * b, BLOCK_LEN * b + BLOCK_LEN)
    ensures Verified(data', hash, leaf, offset, length) <==> Digest(Block(data', b)) == Digest(Block(data, b))
  {
    hide Digest, Node;
    assert AboveBlock(leaf, leaf + b, b);
    assert Consistent(data, hash, leaf, leaf + b);
    if Digest(Block(data', b)) == Digest(Block(data, b)) {
      forall m: nat | m < 2 * leaf + 1 ensures Consistent(data', hash, leaf, m) {
        assert Consistent(data, hash, leaf, m);
        if m >= leaf && m != leaf + b {
          WindowSame(data, data', BLOCK_LEN * b, BLOCK_LEN * b + BLOCK_LEN, BLOCK_LEN * (m - leaf), BLOCK_LEN);
        }
      }
      ValidTreeVerifies(data', hash, leaf, offset, length);
    } else {
      assert !Consistent(data', hash, leaf, leaf + b);
    }
  }

  /** After a change of one aligned word of block b, a verification that covers the block succeeds
      exactly when the change is between 0 and 2^32 - 1. */
  lemma WordChangeDetected(data: seq<byte>, data': seq<byte>, hash: seq<byte>, leaf: nat, b: nat, i: nat,
                           offset: nat, length: nat)
    requires Sized(data, hash, leaf) && Sized(data', hash, leaf) && ValidTree(data, hash, leaf)
    requires offset + length <= |data| && length > 0
    requires offset / BLOCK_LEN <= b <= (offset + length - 1) / BLOCK_LEN
    requires i < BLOCK_LEN / 4
    requires SameOutside(data, data', BLOCK_LEN * b + 4 * i, BLOCK_LEN * b + 4 * i + 4)
    requires Words(Block(data', b))[i] != Words(Block(data, b))[i]
    ensures Verified(data', hash, leaf, offset, length)
       <==> Confused(Words(Block(data, b))[i], Words(Block(data', b))[i])
  {
    hide Digest, Words, Confused, Verified, ValidTree;
    var s, t := Block(data, b), Block(data', b);
    forall k | 0 <= k < |Words(s)| && k != i ensures Words(t)[k] == Words(s)[k] {
      assert Window(t, 4 * k, 4) == Window(s, 4 * k, 4);
    }
    DigestOfWordChange(s, t, i);
    BlockChangeDetected(data, data', hash, leaf, b, offset, length);
  }

  // The functions of myfilesystem.c

  /** hash_node: the digest for node n, written to out at position at. hashCat is the caller's scratch array. */
  method HashNode(n: nat, hashCat: array<byte>, out: array<byte>, at: nat,
                  file: array<byte>, hash: array<byte>, leafOffset: nat)
    requires Sized(file[..], hash[..], leafOffset) && n < 2 * leafOffset + 1
    requires hashCat.Length == 2 * HASH_LEN && at + HASH_LEN <= out.Length
    requires hashCat != file && hashCat != hash && hashCat != out
    modifies hashCat, out
    ensures out[..] == Overwrite(old(out[..]), at, NodeHash(old(file[..]), old(hash[..]), leafOffset, n))
  {
    hide Digest;
    ghost var s, h := file[..], hash[..];
    if n < leafOffset {
      CatChildren(n, hashCat, hash);
      assert hashCat[0..2 * HASH_LEN] == Node(h, Left(n)) + Node(h, Right(n));
      Fletcher(hashCat, 0, 2 * HASH_LEN, out, at);
    } else {
      var b := n - leafOffset;
      assert file[b * BLOCK_LEN..b * BLOCK_LEN + BLOCK_LEN] == Block(s, b);
      Fletcher(file, b * BLOCK_LEN, BLOCK_LEN, out, at);
    }
  }

  /** The two memcpy calls that put the child hashes of node n side by side. */
  method CatChildren(n: nat, hashCat: array<byte>, hash: array<byte>)
    requires hashCat.Length == 2 * HASH_LEN && hashCat != hash
    requires HASH_LEN * Right(n) + HASH_LEN <= hash.Length
    modifies hashCat
    ensures hashCat[..] == Node(hash[..], Left(n)) + Node(hash[..], Right(n))
  {
    ghost var h := hash[..];
    MemCopy(hashCat, 0, hash[Left(n) * HASH_LEN..Left(n) * HASH_LEN + HASH_LEN]);
    MemCopy(hashCat, HASH_LEN, hash[Right(n) * HASH_LEN..Right(n) * HASH_LEN + HASH_LEN]);
    assert hash[..] == h;
  }

  predicate PowerOfTwo(n: nat) {
    n == 1 || (n > 1 && n % 2 == 0 && PowerOfTwo(n / 2))
  }

  /** The nodes that compute_hash_tree visits from the level with the given number of nodes on. */
  predicate Visited(level: nat, m: nat) {
    level > 0 && (level - 1 <= m <= 2 * level - 2 || Visited(level / 2, m))
  }

  /** The nodes that it still visits, in the level with the given number of nodes and those above, when it reaches node n. */
  predicate Ahead(level: nat, n: int, m: nat) {
    level > 0 && (n <= m <= 2 * level - 2 || Visited(level / 2, m))
  }

  lemma {:induction false} VisitedIsNotLarger(level: nat, m: nat)
    requires Visited(level, m)
    ensures m + 2 <= 2 * level
  {
    if !(level - 1 <= m <= 2 * level - 2) {
      VisitedIsNotLarger(level / 2, m);
    }
  }

  ghost predicate VisitsAll(level: nat) {
    forall m: nat :: m < 2 * level - 1 ==> Visited(level, m)
  }

  /** The traversal visits every node exactly for a power of two: otherwise some level is odd, and the
      last but one node index below it is in no level. */
  lemma {:induction false} VisitsAllIff(level: nat)
    requires level > 0
    ensures VisitsAll(level) <==> PowerOfTwo(level)
  {
    if level > 1 {
      VisitsAllIff(level / 2);
      if level % 2 == 0 {
        forall m: nat | m < level - 1 ensures Visited(level, m) <==> Visited(level / 2, m) {
        }
      } else {
        if Visited(level / 2, level - 2) {
          VisitedIsNotLarger(level / 2, level - 2);
        }
        assert !Visited(level, level - 2);
      }
    } else {
      assert Visited(1, 0);
    }
  }

  /** The node that compute_hash_tree has reached in a level of the given size. */
  predicate Reached(leaf: nat, level: int, n: int) {
    0 <= level <= leaf + 1 && level - 1 <= n && (level > 0 ==> n <= 2 * level - 2) && (level == 0 ==> n == -1)
  }

  /** What the visits so far are: those of the whole traversal that are not still ahead, no node twice
      and none before a child that is visited, too. */
  ghost predicate VisitsTo(visits: seq<nat>, leaf: nat, level: nat, n: int) {
    && (forall m: nat :: m in visits ==> m < 2 * leaf + 1 && (m >= 2 * level - 1 || level - 1 <= m < n))
    && (forall m: nat :: m in visits || Ahead(level, n, m) <==> Visited(leaf + 1, m))
    && ChildrenFirst(visits)
  }

  ghost predicate ChildrenFirst(visits: seq<nat>) {
    forall i, j :: 0 <= i < j < |visits|
      ==> visits[i] != visits[j] && visits[j] != Left(visits[i]) && visits[j] != Right(visits[i])
  }

  lemma AppendVisit(visits: seq<nat>, n: nat)
    requires ChildrenFirst(visits) && n !in visits
    requires forall m: nat :: m in visits ==> n != Left(m) && n != Right(m)
    ensures ChildrenFirst(visits + [n])
  {
    hide Left, Right;
  }

  lemma VisitNext(visits: seq<nat>, leaf: nat, level: nat, n: nat)
    requires Reached(leaf, level, n) && level > 0 && VisitsTo(visits, leaf, level, n)
    ensures n < 2 * leaf + 1 && n !in visits
    ensures forall m: nat :: m in visits ==> n != Left(m) && n != Right(m)
    ensures if n < 2 * level - 2 then VisitsTo(visits + [n], leaf, level, n + 1)
            else VisitsTo(visits + [n], leaf, level / 2, level / 2 - 1)
  {
    hide ChildrenFirst;
    assert n !in visits;
    AppendVisit(visits, n);
    var v := visits + [n];
    var (level', n') := if n < 2 * level - 2 then (level, n + 1) else (level / 2, level / 2 - 1);
    forall m: nat ensures m in v || Ahead(level', n', m) <==> Visited(leaf + 1, m) {
      assert m in visits || Ahead(level, n, m) <==> Visited(leaf + 1, m);
      NextAhead(level, n, m);
    }
  }

  lemma NextAhead(level: nat, n: nat, m: nat)
    requires level > 0 && level - 1 <= n <= 2 * level - 2
    ensures Ahead(level, n, m)
       <==> m == n || if n < 2 * level - 2 then Ahead(level, n + 1, m) else Ahead(level / 2, level / 2 - 1, m)
  {
  }

  lemma ConsistentAfterHashNode(data: seq<byte>, hash: seq<byte>, leaf: nat, n: nat, m: nat)
    requires Sized(data, hash, leaf) && n < 2 * leaf + 1
    requires m == n || (Consistent(data, hash, leaf, m) && n != Left(m) && n != Right(m))
    ensures Consistent(data, SetNode(hash, n, NodeHash(data, hash, leaf, n)), leaf, m)
  {
    hide Consistent, SetNode, NodeHash;
    if m == n {
      ConsistentAfterWrite(data, hash, leaf, n);
    } else {
      ConsistentBeside(data, hash, leaf, n, NodeHash(data, hash, leaf, n), m);
    }
  }

  /** The nodes that the traversal does not visit hold the right hashes. */
  ghost predicate UnvisitedMatch(data: seq<byte>, hash: seq<byte>, leaf: nat) {
    forall m: nat :: m < 2 * leaf + 1 && !Visited(leaf + 1, m) ==> Node(hash, m) == Merkle(data, leaf, m)
  }

  lemma {:induction false} VisitedNodeIsMerkle(data: seq<byte>, hash: seq<byte>, leaf: nat, n: nat)
    requires UnvisitedMatch(data, hash, leaf) && n < 2 * leaf + 1
    requires forall m: nat :: Visited(leaf + 1, m) ==> Consistent(data, hash, leaf, m)
    ensures Node(hash, n) == Merkle(data, leaf, n)
    decreases 2 * leaf - n
  {
    hide Node, Digest, Block, Visited;
    if Visited(leaf + 1, n) {
      assert Consistent(data, hash, leaf, n);
      if n < leaf {
        VisitedNodeIsMerkle(data, hash, leaf, Left(n));
        VisitedNodeIsMerkle(data, hash, leaf, Right(n));
      }
    } else {
      assert Node(hash, n) == Merkle(data, leaf, n);
    }
  }

  /** The traversal leaves a valid tree exactly when the nodes that it does not visit held the right hashes before. */
  lemma TraversalRestoresIff(data: seq<byte>, was: seq<byte>, hash: seq<byte>, leaf: nat)
    requires forall m: nat :: Visited(leaf + 1, m) ==> Consistent(data, hash, leaf, m)
    requires forall m: nat :: !Visited(leaf + 1, m) ==> Node(hash, m) == Node(was, m)
    ensures ValidTree(data, hash, leaf) <==> UnvisitedMatch(data, was, leaf)
  {
    hide Node, Consistent, Merkle, Visited, ValidTree;
    ValidTreeIffMerkle(data, hash, leaf);
    if UnvisitedMatch(data, was, leaf) {
      forall n: nat | n < 2 * leaf + 1 ensures Node(hash, n) == Merkle(data, leaf, n) {
        VisitedNodeIsMerkle(data, hash, leaf, n);
      }
    }
  }

  /** So it restores every tree exactly for a power of two; for any other number of leaves some tree stays invalid. */
  lemma RestoresAllIff(data: seq<byte>, leaf: nat)
    requires |data| == BLOCK_LEN * (leaf + 1)
    ensures PowerOfTwo(leaf + 1) <==> forall hash | Sized(data, hash, leaf) :: UnvisitedMatch(data, hash, leaf)
  {
    hide Node, Merkle, Visited, PowerOfTwo;
    VisitsAllIff(leaf + 1);
    if !PowerOfTwo(leaf + 1) {
      var m: nat :| m < 2 * leaf + 1 && !Visited(leaf + 1, m);
      var hash, d := Zeros(HASH_LEN * (2 * leaf + 1)), Merkle(data, leaf, m);
      var other := d[0 := if d[0] == 0 then 1 else 0];
      NodeOfSetNode(hash, m, other, m);
      assert other[0] != d[0];
      assert !UnvisitedMatch(data, SetNode(hash, m, other), leaf);
    }
  }

  /** Every node occurs exactly once, after both its children. */
  ghost predicate BottomUp(visits: seq<nat>, leaf: nat) {
    && (forall m: nat :: m in visits <==> m < 2 * leaf + 1)
    && (forall i, j :: 0 <= i < j < |visits| ==> visits[i] != visits[j])
    && (forall i :: 0 <= i < |visits| && visits[i] < leaf
          ==> Left(visits[i]) in visits[..i] && Right(visits[i]) in visits[..i])
  }

  lemma BottomUpIff(visits: seq<nat>, leaf: nat)
    requires VisitsTo(visits, leaf, 0, -1)
    ensures BottomUp(visits, leaf) <==> PowerOfTwo(leaf + 1)
  {
    hide Left, Right, Visited, PowerOfTwo;
    VisitsAllIff(leaf + 1);
    AllVisits(visits, leaf);
    if PowerOfTwo(leaf + 1) {
      forall m: nat ensures m in visits <==> m < 2 * leaf + 1 {
      }
      forall i | 0 <= i < |visits| && visits[i] < leaf
        ensures Left(visits[i]) in visits[..i] && Right(visits[i]) in visits[..i]
      {
        ChildBefore(visits, i, Left(visits[i]), leaf);
        ChildBefore(visits, i, Right(visits[i]), leaf);
      }
      assert BottomUp(visits, leaf);
    } else {
      var m: nat :| m < 2 * leaf + 1 && !Visited(leaf + 1, m);
      assert m !in visits;
    }
  }

  lemma ChildBefore(visits: seq<nat>, i: nat, child: nat, leaf: nat)
    requires ChildrenFirst(visits) && i < |visits| && visits[i] < leaf
    requires child == Left(visits[i]) || child == Right(visits[i])
    requires forall m: nat :: m < 2 * leaf + 1 ==> m in visits
    ensures child in visits[..i]
  {
    assert child in visits;
    var j :| 0 <= j < |visits| && visits[j] == child;
    assert visits[..i][j] == child;
  }

  /** compute_hash_tree: leaf level first, then level by level up to the root. For any number of leaves it
      ends, makes every node it visits match and leaves the others alone; it visits all of them, children
      first, exactly for a power of two, and then the tree is valid. */
  method ComputeHashTree(file: array<byte>, hash: array<byte>, leafOffset: nat) returns (ghost visits: seq<nat>)
    requires Sized(file[..], hash[..], leafOffset) && file != hash
    modifies hash
    ensures forall m: nat :: m in visits ==> Consistent(file[..], hash[..], leafOffset, m)
    ensures forall m: nat :: m !in visits ==> Node(hash[..], m) == Node(old(hash[..]), m)
    ensures forall m: nat :: m in visits <==> Visited(leafOffset + 1, m)
    ensures BottomUp(visits, leafOffset) <==> PowerOfTwo(leafOffset + 1)
    ensures ValidTree(file[..], hash[..], leafOffset) <==> UnvisitedMatch(file[..], old(hash[..]), leafOffset)
    ensures PowerOfTwo(leafOffset + 1) ==>
              ValidTree(file[..], hash[..], leafOffset) && Node(hash[..], 0) == Merkle(file[..], leafOffset, 0)
  {
    hide Consistent, SetNode, NodeHash, Node, Merkle, VisitsTo;
    var hashCat := new byte[2 * HASH_LEN](i => 0);
    ghost var data := file[..];
    var nIndex: int := leafOffset;
    var nCount := 0;
    var nodesInLevel := nIndex + 1;
    visits := [];
    NoVisits(leafOffset);
    while nodesInLevel > 0
      invariant Reached(leafOffset, nodesInLevel, nIndex)
      invariant nIndex == nodesInLevel - 1 + nCount && (nodesInLevel == 0 ==> nCount == 0)
      invariant Sized(data, hash[..], leafOffset) && file[..] == data
      invariant forall m: nat :: m in visits ==> Consistent(data, hash[..], leafOffset, m)
      invariant forall m: nat :: m !in visits ==> Node(hash[..], m) == Node(old(hash[..]), m)
      invariant VisitsTo(visits, leafOffset, nodesInLevel, nIndex)
      decreases nodesInLevel, nodesInLevel - nCount
    {
      ghost var h := hash[..];
      VisitNext(visits, leafOffset, nodesInLevel, nIndex);
      HashNode(nIndex, hashCat, hash, nIndex * HASH_LEN, file, hash, leafOffset);
      SetNodeIsOverwrite(h, nIndex, NodeHash(data, h, leafOffset, nIndex));
      forall m: nat | m in visits + [nIndex] ensures Consistent(data, hash[..], leafOffset, m) {
        ConsistentAfterHashNode(data, h, leafOffset, nIndex, m);
      }
      forall m: nat | m !in visits + [nIndex] ensures Node(hash[..], m) == Node(old(hash[..]), m) {
        NodeOfSetNode(h, nIndex, NodeHash(data, h, leafOffset, nIndex), m);
      }
      visits := visits + [nIndex];
      nCount := nCount + 1;
      if nCount < nodesInLevel {
        nIndex := nIndex + 1;
      } else {
        nodesInLevel := nodesInLevel / 2;
        nIndex := nodesInLevel - 1;
        nCount := 0;
      }
    }
    AllVisits(visits, leafOffset);
    BottomUpIff(visits, leafOffset);
    TraversalRestoresIff(data, old(hash[..]), hash[..], leafOffset);
    if PowerOfTwo(leafOffset + 1) {
      ValidNodeIsMerkle(data, hash[..], leafOffset, 0);
    }
  }

  lemma NoVisits(leaf: nat)
    ensures VisitsTo([], leaf, leaf + 1, leaf)
  {
  }

  lemma AllVisits(visits: seq<nat>, leaf: nat)
    requires VisitsTo(visits, leaf, 0, -1)
    ensures forall m: nat :: m in visits <==> Visited(leaf + 1, m)
  {
    hide Visited, ChildrenFirst;
  }

  lemma SetNodeIsOverwrite(hash: seq<byte>, n: nat, d: seq<byte>)
    ensures SetNode(hash, n, d) == Overwrite(hash, n * HASH_LEN, d)
  {
  }

  /** compute_hash_block_helper: the leaf of a block, then its ancestors up to the root. */
  method ComputeHashBlockHelper(blockOffset: nat, file: array<byte>, hash: array<byte>, leafOffset: nat)
    requires Sized(file[..], hash[..], leafOffset) && file != hash && blockOffset <= leafOffset
    modifies hash
    ensures hash[..] == BlockUpdate(file[..], old(hash[..]), leafOffset, blockOffset)
  {
    hide Digest, Node, SetNode;
    ghost var was := hash[..];
    var nIndex: int := leafOffset + blockOffset;
    assert file[blockOffset * BLOCK_LEN..blockOffset * BLOCK_LEN + BLOCK_LEN] == Block(file[..], blockOffset);
    Fletcher(file, blockOffset * BLOCK_LEN, BLOCK_LEN, hash, nIndex * HASH_LEN);
    SetNodeIsOverwrite(was, nIndex, Digest(Block(file[..], blockOffset)));
    var hashCat := new byte[2 * HASH_LEN](i => 0);
    nIndex := Parent(nIndex);
    while nIndex >= 0
      invariant -1 <= nIndex < leafOffset
      invariant file[..] == old(file[..])
      invariant PathUpdate(hash[..], nIndex) == BlockUpdate(file[..], was, leafOffset, blockOffset)
      decreases nIndex
    {
      ghost var h := hash[..];
      CatChildren(nIndex, hashCat, hash);
      assert hashCat[0..2 * HASH_LEN] == Node(h, Left(nIndex)) + Node(h, Right(nIndex));
      Fletcher(hashCat, 0, 2 * HASH_LEN, hash, nIndex * HASH_LEN);
      SetNodeIsOverwrite(h, nIndex, Digest(Node(h, Left(nIndex)) + Node(h, Right(nIndex))));
      nIndex := Parent(nIndex);
    }
  }

  /** compute_hash_block_range */
  method ComputeHashBlockRange(offset: nat, length: int, file: array<byte>, hash: array<byte>, leafOffset: nat)
    requires Sized(file[..], hash[..], leafOffset) && file != hash
    requires length > 0 ==> offset + length <= file.Length
    modifies hash
    ensures hash[..] == Rehash(file[..], old(hash[..]), leafOffset, offset, length)
  {
    hide BlockUpdate;
    if length <= 0 {
      return;
    }
    var firstBlock := offset / BLOCK_LEN;
    var lastBlock := (offset + length - 1) / BLOCK_LEN;
    var i := firstBlock;
    while i <= lastBlock
      invariant firstBlock <= i <= lastBlock + 1
      invariant file[..] == old(file[..])
      invariant RangeUpdate(file[..], hash[..], leafOffset, i, lastBlock)
             == RangeUpdate(file[..], old(hash[..]), leafOffset, firstBlock, lastBlock)
    {
      ComputeHashBlockHelper(i, file, hash, leafOffset);
      i := i + 1;
    }
  }

  /** verify_hash_range. Its comment announces -1 on failure; the code returns 1. */
  method VerifyHashRange(offset: nat, length: int, file: array<byte>, hash: array<byte>, leafOffset: nat)
    returns (r: int)
    requires Sized(file[..], hash[..], leafOffset) && file != hash
    requires length > 0 ==> offset + length <= file.Length
    ensures r == 0 || r == 1
    ensures r == 0 <==> Verified(file[..], hash[..], leafOffset, offset, length)
  {
    hide Consistent, NodeHash, Digest, Node;
    if length <= 0 {
      return 0;
    }
    var firstBlock := offset / BLOCK_LEN;
    var lastBlock := (offset + length - 1) / BLOCK_LEN;
    var currHash := new byte[HASH_LEN](i => 0);
    var hashCat := new byte[2 * HASH_LEN](i => 0);
    ghost var data, h := file[..], hash[..];
    var i := firstBlock;
    while i <= lastBlock
      invariant firstBlock <= i <= lastBlock + 1
      invariant file[..] == data && hash[..] == h
      invariant forall b: nat, m: nat ::
                  firstBlock <= b < i && AboveBlock(leafOffset, m, b) ==> Consistent(data, h, leafOffset, m)
    {
      var nIndex: int := leafOffset + i;
      while nIndex >= 0
        invariant -1 <= nIndex <= leafOffset + i
        invariant file[..] == data && hash[..] == h
        invariant nIndex >= 0 ==> AboveBlock(leafOffset, nIndex, i)
        invariant forall m: nat :: AboveBlock(leafOffset, m, i) ==> OnPath(m, nIndex) || Consistent(data, h, leafOffset, m)
        decreases nIndex
      {
        HashNode(nIndex, hashCat, currHash, 0, file, hash, leafOffset);
        assert currHash[..] == NodeHash(data, h, leafOffset, nIndex);
        NodeIsSlice(h, nIndex);
        ConsistentIsEqual(data, h, leafOffset, nIndex);
        if currHash[..] != hash[nIndex * HASH_LEN..nIndex * HASH_LEN + HASH_LEN] {
          return 1;
        }
        if nIndex > 0 {
          AboveParent(nIndex, leafOffset + i);
        }
        nIndex := Parent(nIndex);
      }
      i := i + 1;
    }
    return 0;
  }

  lemma NodeIsSlice(hash: seq<byte>, n: nat)
    requires n * HASH_LEN + HASH_LEN <= |hash|
    ensures Node(hash, n) == hash[n * HASH_LEN..n * HASH_LEN + HASH_LEN]
  {
  }

  lemma ConsistentIsEqual(data: seq<byte>, hash: seq<byte>, leaf: nat, n: nat)
    ensures Consistent(data, hash, leaf, n) <==> Node(hash, n) == NodeHash(data, hash, leaf, n)
  {
  }
}
