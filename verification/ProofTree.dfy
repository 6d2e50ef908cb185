/** What a partial merkle tree is as a tree, and that reading one succeeds exactly on the trees that are written. */
module ProofTree {
  import opened Powers
  import opened Merkle
  import opened PartialTree

  /** A node that is not descended into, or one with its children. */
  datatype Proof = Stop(fMatch: bool, hash: Digest) | Lone(left: Proof) | Both(left: Proof, right: Proof)

  /** Every node is where there is one: below a leaf there is nothing, and a node has a right child exactly if there
      are transactions for it. A node that is no leaf is not descended into only with its flag unset. */
  ghost predicate Fits(p: Proof, n: nat, height: nat, pos: nat) {
    match p
    case Stop(fMatch, _) => height == 0 || !fMatch
    case Lone(left) =>
      height > 0 && 2 * pos + 1 >= CalcTreeWidth(n, height - 1) && Fits(left, n, height - 1, 2 * pos)
    case Both(left, right) =>
      height > 0 && 2 * pos + 1 < CalcTreeWidth(n, height - 1)
      && Fits(left, n, height - 1, 2 * pos) && Fits(right, n, height - 1, 2 * pos + 1)
  }

  /** Flags, depth first. */
  function Flags(p: Proof): seq<bool> {
    match p
    case Stop(fMatch, _) => [fMatch]
    case Lone(left) => [true] + Flags(left)
    case Both(left, right) => [true] + Flags(left) + Flags(right)
  }

  function Hashes(p: Proof): seq<Digest> {
    match p
    case Stop(_, hash) => [hash]
    case Lone(left) => Hashes(left)
    case Both(left, right) => Hashes(left) + Hashes(right)
  }

  function HashOf(H: Combine, p: Proof): Digest {
    match p
    case Stop(_, hash) => hash
    case Lone(left) => H(HashOf(H, left), HashOf(H, left))
    case Both(left, right) => H(HashOf(H, left), HashOf(H, right))
  }

  /** The hashes of the leaves whose flag is set. */
  function Leaves(p: Proof): seq<Digest> {
    match p
    case Stop(fMatch, hash) => if fMatch then [hash] else []
    case Lone(left) => Leaves(left)
    case Both(left, right) => Leaves(left) + Leaves(right)
  }

  /** A tree is read back wherever it stands. */
  lemma {:induction false} ReadsTree(H: Combine, p: Proof, n: nat, height: nat, pos: nat, vBits: seq<bool>,
                                     vHash: seq<Digest>, b: nat, k: nat)
    requires pos < CalcTreeWidth(n, height) && Fits(p, n, height, pos)
    requires StandsAt(Flags(p), vBits, b) && StandsAt(Hashes(p), vHash, k)
    ensures Extract(H, n, vBits, vHash, height, pos, b, k)
         == Extracted(HashOf(H, p), b + |Flags(p)|, k + |Hashes(p)|, Leaves(p))
  {
    hide CalcTreeWidth, StandsAt, Extract;
    Begins(p, vBits, vHash, b, k);
    if p.Stop? {
      ExtractFirst(H, n, vBits, vHash, height, pos, b, k);
    } else {
      Halves(n, height, pos);
      ExtractLeft(H, n, vBits, vHash, height, pos, b, k);
      if p.Lone? {
        StandsSplit([true], Flags(p.left), vBits, b);
        ReadsTree(H, p.left, n, height - 1, 2 * pos, vBits, vHash, b + 1, k);
      } else {
        StandsSplit([true] + Flags(p.left), Flags(p.right), vBits, b);
        StandsSplit([true], Flags(p.left), vBits, b);
        StandsSplit(Hashes(p.left), Hashes(p.right), vHash, k);
        ReadsTree(H, p.left, n, height - 1, 2 * pos, vBits, vHash, b + 1, k);
        ReadsTree(H, p.right, n, height - 1, 2 * pos + 1, vBits, vHash, b + 1 + |Flags(p.left)|,
                  k + |Hashes(p.left)|);
        ExtractRight(H, n, vBits, vHash, height, pos, b, k);
      }
    }
  }

  lemma {:induction false} Begins(p: Proof, vBits: seq<bool>, vHash: seq<Digest>, b: nat, k: nat)
    requires StandsAt(Flags(p), vBits, b) && StandsAt(Hashes(p), vHash, k)
    ensures b < |vBits| && b + |Flags(p)| <= |vBits| && k + |Hashes(p)| <= |vHash|
    ensures vBits[b] == if p.Stop? then p.fMatch else true
    ensures p.Stop? ==> k < |vHash| && vHash[k] == p.hash
  {
    assert vBits[b..b + |Flags(p)|][0] == Flags(p)[0];
    if p.Stop? {
      assert vHash[k..k + 1][0] == p.hash;
    }
  }

  /** The tree that is read, if reading succeeds. */
  function TreeRead(H: Combine, n: nat, vBits: seq<bool>, vHash: seq<Digest>, height: nat, pos: nat, b: nat,
                    k: nat): Proof
    requires pos < CalcTreeWidth(n, height) && b <= |vBits| && k <= |vHash|
    requires Extract(H, n, vBits, vHash, height, pos, b, k).Extracted?
    decreases height
  {
    if height == 0 || !vBits[b] then Stop(vBits[b], vHash[k])
    else
      Halves(n, height, pos);
      var left := TreeRead(H, n, vBits, vHash, height - 1, 2 * pos, b + 1, k);
      var e := Extract(H, n, vBits, vHash, height - 1, 2 * pos, b + 1, k);
      if 2 * pos + 1 < CalcTreeWidth(n, height - 1) then
        Both(left, TreeRead(H, n, vBits, vHash, height - 1, 2 * pos + 1, e.nBitsUsed, e.nHashUsed))
      else Lone(left)
  }

  lemma {:induction false} ReadIsTree(H: Combine, n: nat, vBits: seq<bool>, vHash: seq<Digest>, height: nat, pos: nat,
                                      b: nat, k: nat)
    requires pos < CalcTreeWidth(n, height) && b <= |vBits| && k <= |vHash|
    requires Extract(H, n, vBits, vHash, height, pos, b, k).Extracted?
    ensures var p, e := TreeRead(H, n, vBits, vHash, height, pos, b, k), Extract(H, n, vBits, vHash, height, pos, b, k);
            && Fits(p, n, height, pos)
            && StandsAt(Flags(p), vBits, b) && b + |Flags(p)| == e.nBitsUsed
            && StandsAt(Hashes(p), vHash, k) && k + |Hashes(p)| == e.nHashUsed
            && e.hash == HashOf(H, p) && e.matched == Leaves(p)
    decreases height
  {
    hide CalcTreeWidth, Extract, StandsAt, HashOf, Leaves;
    ExtractFirst(H, n, vBits, vHash, height, pos, b, k);
    Values(H, TreeRead(H, n, vBits, vHash, height, pos, b, k));
    if height == 0 || !vBits[b] {
      OneStands(vBits, b);
      OneStands(vHash, k);
    } else {
      Halves(n, height, pos);
      ExtractLeft(H, n, vBits, vHash, height, pos, b, k);
      var l := Extract(H, n, vBits, vHash, height - 1, 2 * pos, b + 1, k);
      ReadIsTree(H, n, vBits, vHash, height - 1, 2 * pos, b + 1, k);
      var left := TreeRead(H, n, vBits, vHash, height - 1, 2 * pos, b + 1, k);
      OneStands(vBits, b);
      StandsJoin([true], Flags(left), vBits, b);
      if 2 * pos + 1 < CalcTreeWidth(n, height - 1) {
        ExtractRight(H, n, vBits, vHash, height, pos, b, k);
        ReadIsTree(H, n, vBits, vHash, height - 1, 2 * pos + 1, l.nBitsUsed, l.nHashUsed);
        var right := TreeRead(H, n, vBits, vHash, height - 1, 2 * pos + 1, l.nBitsUsed, l.nHashUsed);
        StandsJoin([true] + Flags(left), Flags(right), vBits, b);
        StandsJoin(Hashes(left), Hashes(right), vHash, k);
      }
    }
  }

  /** Hash and marked leaves of a tree by those of its children. */
  lemma {:induction false} Values(H: Combine, p: Proof)
    ensures HashOf(H, p) == match p
                            case Stop(_, hash) => hash
                            case Lone(left) => H(HashOf(H, left), HashOf(H, left))
                            case Both(left, right) => H(HashOf(H, left), HashOf(H, right))
    ensures Leaves(p) == match p
                         case Stop(fMatch, hash) => if fMatch then [hash] else []
                         case Lone(left) => Leaves(left)
                         case Both(left, right) => Leaves(left) + Leaves(right)
  {
  }

  lemma OneStands<T>(whole: seq<T>, at: nat)
    requires at < |whole|
    ensures StandsAt([whole[at]], whole, at)
  {
  }

  lemma StandsJoin<T>(a: seq<T>, b: seq<T>, whole: seq<T>, at: nat)
    requires StandsAt(a, whole, at) && StandsAt(b, whole, at + |a|)
    ensures StandsAt(a + b, whole, at)
  {
    assert whole[at..at + |a + b|] == whole[at..at + |a|] + whole[at + |a|..at + |a| + |b|];
  }

  /** `vBits` are the flags of the tree, filled up within their last byte, and `vHash` its hashes. */
  ghost predicate Shown(p: Proof, n: nat, vBits: seq<bool>, vHash: seq<Digest>) {
    && Fits(p, n, Height(n), 0)
    && Flags(p) <= vBits && (|Flags(p)| + 7) / 8 == (|vBits| + 7) / 8
    && Hashes(p) == vHash
  }

  /** A message is accepted exactly if it shows a tree, for a number of transactions that a block can have, with no more
      hashes than there are transactions; and then it tells the tree's hash and the leaves marked in it. */
  lemma AcceptsIff(H: Combine, n: nat, vBits: seq<bool>, vHash: seq<Digest>)
    ensures Accept(H, n, vBits, vHash).Extracted? <==>
              && 1 <= n <= 16_666 && |vHash| <= n && |vHash| <= |vBits|
              && exists p :: Shown(p, n, vBits, vHash)
    ensures forall p :: Shown(p, n, vBits, vHash) && Accept(H, n, vBits, vHash).Extracted? ==>
              && Accept(H, n, vBits, vHash).hash == HashOf(H, p) && Accept(H, n, vBits, vHash).matched == Leaves(p)
  {
    hide CalcTreeWidth, Extract, Fits, HeightFrom;
    if n >= 1 {
      RootThere(n);
      forall p | Shown(p, n, vBits, vHash)
        ensures Extract(H, n, vBits, vHash, Height(n), 0, 0, 0)
             == Extracted(HashOf(H, p), |Flags(p)|, |Hashes(p)|, Leaves(p))
      {
        assert vBits[0..0 + |Flags(p)|] == Flags(p) && vHash[0..0 + |Hashes(p)|] == Hashes(p);
        ReadsTree(H, p, n, Height(n), 0, vBits, vHash, 0, 0);
      }
      if Accept(H, n, vBits, vHash).Extracted? {
        ReadIsTree(H, n, vBits, vHash, Height(n), 0, 0, 0);
        var p := TreeRead(H, n, vBits, vHash, Height(n), 0, 0, 0);
        assert Shown(p, n, vBits, vHash);
      }
    }
  }
}
