/** The airdrop: sorted-pair Merkle proofs, write-once roots, one claim per user and stage. */
module Airdrop {
  import opened Outcomes
  import opened Bytes

  type Hash = h: ByteString | |h| == 32 witness seq(32, i => 0)

  /** The hash function is a parameter; only what is assumed of it where it is used matters. */
  type Hasher = ByteString -> Hash

  type Addr = ByteString

  datatype Leaf = Leaf(addr: Addr, amount: nat)

  /** What a leaf hashes: the address followed by the decimal amount, with nothing in between. */
  function LeafInput(leaf: Leaf): ByteString {
    leaf.addr + Digits(leaf.amount)
  }

  /** What an inner node hashes: its two children, the smaller first. */
  function NodeInput(a: Hash, b: Hash): ByteString {
    if LexLess(a, b) then a + b else b + a
  }

  /** The hash reached from a leaf hash by a proof. */
  function Climb(h: Hasher, leaf: Hash, proof: seq<Hash>): Hash {
    if proof == [] then leaf
    else h(NodeInput(Climb(h, leaf, proof[..|proof| - 1]), proof[|proof| - 1]))
  }

  lemma NodeInputSymmetric(a: Hash, b: Hash)
    ensures NodeInput(a, b) == NodeInput(b, a)
  {
    LexTotal(a, b);
  }

  lemma NodeInputInjective(a: Hash, b: Hash, c: Hash, d: Hash)
    requires NodeInput(a, b) == NodeInput(c, d)
    ensures (a == c && b == d) || (a == d && b == c)
  {
    var x, y := NodeInput(a, b), NodeInput(c, d);
    assert (x[..32] == a && x[32..] == b) || (x[..32] == b && x[32..] == a);
    assert (y[..32] == c && y[32..] == d) || (y[..32] == d && y[32..] == c);
  }

  // ----- trees -----

  datatype Tree = Tip(leaf: Leaf) | Fork(left: Tree, right: Tree)

  function Root(h: Hasher, t: Tree): Hash {
    match t
    case Tip(leaf) => h(LeafInput(leaf))
    case Fork(l, r) => h(NodeInput(Root(h, l), Root(h, r)))
  }

  function LeavesOf(t: Tree): seq<Leaf> {
    match t
    case Tip(leaf) => [leaf]
    case Fork(l, r) => LeavesOf(l) + LeavesOf(r)
  }

  /** The leaf at the end of a path of turns, and the sibling hashes passed on the way, bottom first. */
  function LeafAt(t: Tree, turns: seq<bool>): Option<Leaf> {
    match t
    case Tip(leaf) => if turns == [] then Some(leaf) else None
    case Fork(l, r) => if turns == [] then None else LeafAt(if turns[0] then l else r, turns[1..])
  }

  function HonestProof(h: Hasher, t: Tree, turns: seq<bool>): seq<Hash>
    requires LeafAt(t, turns).Some?
  {
    if t.Tip? then []
    else if turns[0] then HonestProof(h, t.left, turns[1..]) + [Root(h, t.right)]
    else HonestProof(h, t.right, turns[1..]) + [Root(h, t.left)]
  }

  /** The proof of every leaf of a tree leads to its root, for any hash function. */
  lemma {:induction false} HonestProofAccepted(h: Hasher, t: Tree, turns: seq<bool>)
    requires LeafAt(t, turns).Some?
    ensures Climb(h, h(LeafInput(LeafAt(t, turns).value)), HonestProof(h, t, turns)) == Root(h, t)
  {
    if t.Fork? {
      HonestProofAccepted(h, if turns[0] then t.left else t.right, turns[1..]);
      NodeInputSymmetric(Root(h, t.left), Root(h, t.right));
      var proof := HonestProof(h, t, turns);
      assert proof[..|proof| - 1] == HonestProof(h, if turns[0] then t.left else t.right, turns[1..]);
    }
  }

  lemma LeafAtIsLeaf(t: Tree, turns: seq<bool>)
    requires LeafAt(t, turns).Some?
    ensures LeafAt(t, turns).value in LeavesOf(t)
  {}

  // ----- soundness -----

  /** The hash function tells the inputs of a set apart. */
  ghost predicate CollisionFree(h: Hasher, inputs: set<ByteString>) {
    forall x, y | x in inputs && y in inputs && h(x) == h(y) :: x == y
  }

  ghost predicate TreeHashed(h: Hasher, t: Tree, leaves: set<ByteString>, nodes: set<ByteString>) {
    match t
    case Tip(leaf) => LeafInput(leaf) in leaves
    case Fork(l, r) =>
      && TreeHashed(h, l, leaves, nodes) && TreeHashed(h, r, leaves, nodes)
      && NodeInput(Root(h, l), Root(h, r)) in nodes
  }

  ghost predicate ClimbHashed(h: Hasher, leaf: Hash, proof: seq<Hash>, nodes: set<ByteString>) {
    proof == [] ||
    (ClimbHashed(h, leaf, proof[..|proof| - 1], nodes)
     && NodeInput(Climb(h, leaf, proof[..|proof| - 1]), proof[|proof| - 1]) in nodes)
  }

  /** The last hash of an accepted proof is a child of the root, and the rest of it leads to the other. */
  lemma TopOfProof(h: Hasher, t: Tree, claim: Leaf, proof: seq<Hash>,
                   leaves: set<ByteString>, nodes: set<ByteString>) returns (goLeft: bool)
    requires CollisionFree(h, leaves + nodes) && leaves !! nodes
    requires TreeHashed(h, t, leaves, nodes)
    requires proof != [] && ClimbHashed(h, h(LeafInput(claim)), proof, nodes)
    requires Climb(h, h(LeafInput(claim)), proof) == Root(h, t)
    ensures t.Fork?
    ensures Climb(h, h(LeafInput(claim)), proof[..|proof| - 1]) == Root(h, if goLeft then t.left else t.right)
    ensures proof[|proof| - 1] == Root(h, if goLeft then t.right else t.left)
  {
    var reached, sibling := Climb(h, h(LeafInput(claim)), proof[..|proof| - 1]), proof[|proof| - 1];
    assert t.Fork?;
    NodeInputInjective(reached, sibling, Root(h, t.left), Root(h, t.right));
    goLeft := reached == Root(h, t.left) && sibling == Root(h, t.right);
  }

  /** Every accepted proof is the proof of a real leaf with the claimed input, provided the hash function
      tells the inputs in use apart and no leaf input is also a node input. */
  lemma {:induction false} AcceptedProofIsReal(h: Hasher, t: Tree, claim: Leaf, proof: seq<Hash>,
                                               leaves: set<ByteString>, nodes: set<ByteString>)
    returns (turns: seq<bool>)
    requires CollisionFree(h, leaves + nodes) && leaves !! nodes
    requires TreeHashed(h, t, leaves, nodes)
    requires LeafInput(claim) in leaves && ClimbHashed(h, h(LeafInput(claim)), proof, nodes)
    requires Climb(h, h(LeafInput(claim)), proof) == Root(h, t)
    ensures LeafAt(t, turns).Some? && LeafInput(LeafAt(t, turns).value) == LeafInput(claim)
    ensures proof == HonestProof(h, t, turns)
  {
    turns := [];
    if proof != [] {
      var below := proof[..|proof| - 1];
      var goLeft := TopOfProof(h, t, claim, proof, leaves, nodes);
      var rest := AcceptedProofIsReal(h, if goLeft then t.left else t.right, claim, below, leaves, nodes);
      turns := [goLeft] + rest;
      assert turns[1..] == rest;
      assert proof == below + [proof[|proof| - 1]];
    }
  }

  /** With addresses of one length the input determines address and amount. */
  lemma LeafInputInjective(a: Leaf, b: Leaf)
    requires |a.addr| == |b.addr| && LeafInput(a) == LeafInput(b)
    ensures a == b
  {
    assert LeafInput(a)[..|a.addr|] == a.addr && LeafInput(b)[..|b.addr|] == b.addr;
    assert LeafInput(a)[|a.addr|..] == Digits(a.amount) && LeafInput(b)[|b.addr|..] == Digits(b.amount);
    DigitsInjective(a.amount, b.amount);
  }

  // ----- the contract -----

  datatype Storage = Storage(owner: Addr, latestStage: nat, roots: map<nat, string>, claimed: set<(Addr, nat)>)

  datatype Error = Unauthorized | InvalidHexMerkle | StageOverflow | NoRoot | AlreadyClaimed | InvalidHexProof
                 | UnreadableRoot | MerkleVerification

  datatype Op =
    | RegisterRoot(sender: Addr, root: string)
    | Claim(sender: Addr, stage: nat, amount: nat, proof: seq<string>)

  const LAST_STAGE: nat := 255

  function Instantiated(owner: Addr): Storage {
    Storage(owner, 0, map[], {})
  }

  function DecodeProof(proof: seq<string>): Option<seq<Hash>> {
    if proof == [] then Some([])
    else
      match (DecodeProof(proof[..|proof| - 1]), HexDecode(proof[|proof| - 1], 32))
      case (Some(before), Some(hash)) => Some(before + [hash])
      case _ => None
  }

  /** A proof is readable exactly when each of its entries is, and then they are read in order. */
  lemma {:induction false} DecodeProofIff(proof: seq<string>)
    ensures DecodeProof(proof).Some? <==> forall i | 0 <= i < |proof| :: HexDecode(proof[i], 32).Some?
    ensures DecodeProof(proof).Some? ==>
              && |DecodeProof(proof).value| == |proof|
              && forall i | 0 <= i < |proof| :: HexDecode(proof[i], 32) == Some(DecodeProof(proof).value[i])
  {
    if proof != [] {
      DecodeProofIff(proof[..|proof| - 1]);
      assert forall i | 0 <= i < |proof| - 1 :: proof[..|proof| - 1][i] == proof[i];
    }
  }

  /** One call: the new storage and the amount transferred to the sender. */
  function Step(h: Hasher, st: Storage, op: Op): Result<(Storage, nat), Error> {
    match op
    case RegisterRoot(sender, root) =>
      if sender != st.owner then Err(Unauthorized)
      else if HexDecode(root, 32).None? then Err(InvalidHexMerkle)
      else if st.latestStage >= LAST_STAGE then Err(StageOverflow)
      else Ok((st.(latestStage := st.latestStage + 1, roots := st.roots[st.latestStage + 1 := root]), 0))
    case Claim(sender, stage, amount, proof) =>
      if stage !in st.roots then Err(NoRoot)
      else if (sender, stage) in st.claimed then Err(AlreadyClaimed)
      else
        match DecodeProof(proof)
        case None => Err(InvalidHexProof)
        case Some(hashes) =>
          var root := HexDecode(st.roots[stage], 32);
          if root.None? then Err(UnreadableRoot)
          else if Climb(h, h(LeafInput(Leaf(sender, amount))), hashes) != root.value then Err(MerkleVerification)
          else Ok((st.(claimed := st.claimed + {(sender, stage)}), amount))
  }

  /** A run, with what it has paid in each stage. */
  function Run(h: Hasher, st: Storage, calls: seq<Op>): (Storage, map<nat, nat>) {
    if calls == [] then (st, map[])
    else
      var (before, paid) := Run(h, st, calls[..|calls| - 1]);
      var op := calls[|calls| - 1];
      match Step(h, before, op)
      case Err(_) => (before, paid)
      case Ok((after, amount)) =>
        (after, if op.Claim? then paid[op.stage := PaidIn(paid, op.stage) + amount] else paid)
  }

  function PaidIn(paid: map<nat, nat>, stage: nat): nat {
    if stage in paid then paid[stage] else 0
  }

  /** Stages are numbered without gaps, every stored root is readable, and claims are of known stages. */
  ghost predicate WellFormed(st: Storage) {
    && (forall s :: s in st.roots <==> 1 <= s <= st.latestStage)
    && (forall s | s in st.roots :: HexDecode(st.roots[s], 32).Some?)
    && (forall c | c in st.claimed :: c.1 in st.roots)
  }

  lemma StepKeepsRoots(h: Hasher, st: Storage, op: Op)
    requires WellFormed(st)
    ensures Step(h, st, op) != Err(UnreadableRoot)
    ensures Step(h, st, op).Ok? ==>
              var after := Step(h, st, op).value.0;
              && WellFormed(after)
              && (forall s | s in st.roots :: s in after.roots && after.roots[s] == st.roots[s])
              && st.claimed <= after.claimed
  {
    assert op.Claim? && op.stage in st.roots ==> HexDecode(st.roots[op.stage], 32).Some?;
  }

  /** No run changes a registered root, forgets a claim, or meets a root it cannot read. */
  lemma {:induction false} RootsAreWriteOnce(h: Hasher, st: Storage, calls: seq<Op>)
    requires WellFormed(st)
    ensures var after := Run(h, st, calls).0;
            && WellFormed(after)
            && (forall s | s in st.roots :: s in after.roots && after.roots[s] == st.roots[s])
            && st.claimed <= after.claimed
  {
    if calls != [] {
      RootsAreWriteOnce(h, st, calls[..|calls| - 1]);
      StepKeepsRoots(h, Run(h, st, calls[..|calls| - 1]).0, calls[|calls| - 1]);
    }
  }

  /** A registration stores the root it is given as the next stage, for the owner, if it reads as a hash; the
      255th stage is the last. */
  lemma RegistrationOutcome(h: Hasher, st: Storage, sender: Addr, root: string)
    ensures Step(h, st, RegisterRoot(sender, root)).Ok? <==>
              sender == st.owner && HexDecode(root, 32).Some? && st.latestStage < 255
    ensures Step(h, st, RegisterRoot(sender, root)).Ok? ==>
              var stage := st.latestStage + 1;
              Step(h, st, RegisterRoot(sender, root)).value
              == (st.(latestStage := stage, roots := st.roots[stage := root]), 0)
  {}

  /** After one successful claim, every later claim of the same user in the same stage is refused. */
  lemma ClaimsAreUnique(h: Hasher, st: Storage, first: Op, calls: seq<Op>, again: Op)
    requires WellFormed(st) && first.Claim? && Step(h, st, first).Ok?
    requires again.Claim? && again.sender == first.sender && again.stage == first.stage
    ensures Step(h, Run(h, Step(h, st, first).value.0, calls).0, again) == Err(AlreadyClaimed)
  {
    RootsAreWriteOnce(h, Step(h, st, first).value.0, calls);
  }

  /** A leaf's owner can claim exactly its amount with the honest proof, once. */
  lemma HonestClaimSucceeds(h: Hasher, st: Storage, stage: nat, t: Tree, turns: seq<bool>)
    requires stage in st.roots && HexDecode(st.roots[stage], 32) == Some(Root(h, t))
    requires LeafAt(t, turns).Some? && (LeafAt(t, turns).value.addr, stage) !in st.claimed
    ensures var leaf := LeafAt(t, turns).value;
            Step(h, st, Claim(leaf.addr, stage, leaf.amount, EncodeProof(HonestProof(h, t, turns))))
            == Ok((st.(claimed := st.claimed + {(leaf.addr, stage)}), leaf.amount))
  {
    HonestProofAccepted(h, t, turns);
    ProofRoundTrip(HonestProof(h, t, turns));
    var leaf := LeafAt(t, turns).value;
    assert Leaf(leaf.addr, leaf.amount) == leaf;
  }

  function EncodeProof(proof: seq<Hash>): seq<string> {
    if proof == [] then [] else EncodeProof(proof[..|proof| - 1]) + [HexEncode(proof[|proof| - 1])]
  }

  lemma {:induction false} ProofRoundTrip(proof: seq<Hash>)
    ensures DecodeProof(EncodeProof(proof)) == Some(proof)
  {
    if proof != [] {
      var n := |proof| - 1;
      ProofRoundTrip(proof[..n]);
      HexRoundTrip(proof[n]);
      var text := EncodeProof(proof);
      assert text[..|text| - 1] == EncodeProof(proof[..n]);
      assert proof == proof[..n] + [proof[n]];
    }
  }

  // ----- the payout cap -----

  /** What the leaves of some users add up to. */
  ghost function Share(leaves: seq<Leaf>, users: set<Addr>): nat {
    if leaves == [] then 0
    else
      var leaf := leaves[|leaves| - 1];
      Share(leaves[..|leaves| - 1], users) + if leaf.addr in users then leaf.amount else 0
  }

  function TotalOf(leaves: seq<Leaf>): nat {
    if leaves == [] then 0 else TotalOf(leaves[..|leaves| - 1]) + leaves[|leaves| - 1].amount
  }

  lemma {:induction false} ShareWithinTotal(leaves: seq<Leaf>, users: set<Addr>)
    ensures Share(leaves, users) <= TotalOf(leaves)
  {
    if leaves != [] {
      ShareWithinTotal(leaves[..|leaves| - 1], users);
    }
  }

  lemma {:induction false} ShareGrows(leaves: seq<Leaf>, users: set<Addr>, leaf: Leaf)
    requires leaf.addr !in users
    ensures Share(leaves, users) + (if leaf in leaves then leaf.amount else 0)
         <= Share(leaves, users + {leaf.addr})
  {
    if leaves != [] {
      ShareGrows(leaves[..|leaves| - 1], users, leaf);
    }
  }

  ghost function Claimants(st: Storage, stage: nat): set<Addr> {
    set c | c in st.claimed && c.1 == stage :: c.0
  }

  /** The inputs that a claim makes the contract hash are among the given ones, and its sender's address
      has the length of all addresses. */
  ghost predicate ClaimHashed(h: Hasher, op: Op, length: nat, leaves: set<ByteString>, nodes: set<ByteString>) {
    op.Claim? && DecodeProof(op.proof).Some? ==>
      && |op.sender| == length
      && LeafInput(Leaf(op.sender, op.amount)) in leaves
      && ClimbHashed(h, h(LeafInput(Leaf(op.sender, op.amount))), DecodeProof(op.proof).value, nodes)
  }

  /** What is assumed of the hash function and of a stage's tree. */
  ghost predicate Trusted(h: Hasher, t: Tree, length: nat, leaves: set<ByteString>, nodes: set<ByteString>) {
    && CollisionFree(h, leaves + nodes) && leaves !! nodes
    && TreeHashed(h, t, leaves, nodes)
    && (forall leaf | leaf in LeavesOf(t) :: |leaf.addr| == length)
  }

  /** A successful claim is of a leaf of the tree: the claimant's own address and its exact amount. */
  lemma ClaimIsOfALeaf(h: Hasher, st: Storage, op: Op, t: Tree,
                       length: nat, leaves: set<ByteString>, nodes: set<ByteString>)
    requires op.Claim? && Step(h, st, op).Ok?
    requires HexDecode(st.roots[op.stage], 32) == Some(Root(h, t))
    requires Trusted(h, t, length, leaves, nodes) && ClaimHashed(h, op, length, leaves, nodes)
    ensures Leaf(op.sender, op.amount) in LeavesOf(t) && Step(h, st, op).value.1 == op.amount
  {
    var claim := Leaf(op.sender, op.amount);
    var turns := AcceptedProofIsReal(h, t, claim, DecodeProof(op.proof).value, leaves, nodes);
    LeafAtIsLeaf(t, turns);
    LeafInputInjective(LeafAt(t, turns).value, claim);
  }

  /** In a stage with a trusted tree a claim succeeds exactly when the sender has not claimed yet and the proof
      is the honest one of a leaf with the sender's address and the amount; it pays the amount and records
      the claim, and nothing else. */
  lemma ClaimSucceedsIff(h: Hasher, st: Storage, op: Op, t: Tree,
                         length: nat, leaves: set<ByteString>, nodes: set<ByteString>)
    requires op.Claim? && op.stage in st.roots && HexDecode(st.roots[op.stage], 32) == Some(Root(h, t))
    requires Trusted(h, t, length, leaves, nodes) && ClaimHashed(h, op, length, leaves, nodes)
    ensures Step(h, st, op).Ok? <==>
              && (op.sender, op.stage) !in st.claimed
              && exists turns :: IsHonest(h, t, turns, Leaf(op.sender, op.amount), op.proof)
    ensures Step(h, st, op).Ok? ==>
              Step(h, st, op).value == (st.(claimed := st.claimed + {(op.sender, op.stage)}), op.amount)
  {
    var claim := Leaf(op.sender, op.amount);
    if Step(h, st, op).Ok? {
      var turns := AcceptedProofIsReal(h, t, claim, DecodeProof(op.proof).value, leaves, nodes);
      LeafAtIsLeaf(t, turns);
      LeafInputInjective(LeafAt(t, turns).value, claim);
      assert IsHonest(h, t, turns, claim, op.proof);
    }
    if turns :| IsHonest(h, t, turns, claim, op.proof) {
      HonestProofAccepted(h, t, turns);
    }
  }

  /** The texts read as the honest proof of the leaf at the end of the path. */
  ghost predicate IsHonest(h: Hasher, t: Tree, turns: seq<bool>, leaf: Leaf, proof: seq<string>) {
    LeafAt(t, turns) == Some(leaf) && DecodeProof(proof) == Some(HonestProof(h, t, turns))
  }

  lemma StepKeepsCap(h: Hasher, st: Storage, op: Op, stage: nat, t: Tree, paid: nat,
                     length: nat, leaves: set<ByteString>, nodes: set<ByteString>)
    requires Trusted(h, t, length, leaves, nodes) && ClaimHashed(h, op, length, leaves, nodes)
    requires stage in st.roots ==> HexDecode(st.roots[stage], 32) == Some(Root(h, t))
    requires Step(h, st, op).Ok? && paid <= Share(LeavesOf(t), Claimants(st, stage))
    ensures var (after, amount) := Step(h, st, op).value;
            paid + (if op.Claim? && op.stage == stage then amount else 0) <= Share(LeavesOf(t), Claimants(after, stage))
  {
    var after := Step(h, st, op).value.0;
    if op.Claim? && op.stage == stage {
      ClaimIsOfALeaf(h, st, op, t, length, leaves, nodes);
      ShareGrows(LeavesOf(t), Claimants(st, stage), Leaf(op.sender, op.amount));
      assert Claimants(after, stage) == Claimants(st, stage) + {op.sender};
    } else {
      assert Claimants(after, stage) == Claimants(st, stage);
    }
  }

  /** On every run from a fresh contract, the total paid in a stage stays within what the leaves of its
      claimants add up to, and hence within the sum of all leaf amounts. */
  lemma {:induction false} StagePayoutCapped(h: Hasher, owner: Addr, calls: seq<Op>, stage: nat, t: Tree,
                                             length: nat, leaves: set<ByteString>, nodes: set<ByteString>)
    requires Trusted(h, t, length, leaves, nodes)
    requires forall op | op in calls :: ClaimHashed(h, op, length, leaves, nodes)
    requires var st := Run(h, Instantiated(owner), calls).0;
             stage in st.roots ==> HexDecode(st.roots[stage], 32) == Some(Root(h, t))
    ensures var (st, paid) := Run(h, Instantiated(owner), calls);
            PaidIn(paid, stage) <= Share(LeavesOf(t), Claimants(st, stage)) <= TotalOf(LeavesOf(t))
  {
    var st := Run(h, Instantiated(owner), calls).0;
    ShareWithinTotal(LeavesOf(t), Claimants(st, stage));
    if calls != [] {
      var rest, op := calls[..|calls| - 1], calls[|calls| - 1];
      assert op in calls;
      RootsAreWriteOnce(h, Instantiated(owner), rest);
      var before := Run(h, Instantiated(owner), rest).0;
      assert stage in before.roots ==> stage in st.roots && st.roots[stage] == before.roots[stage];
      StagePayoutCapped(h, owner, rest, stage, t, length, leaves, nodes);
      if Step(h, before, op).Ok? {
        StepKeepsCap(h, before, op, stage, t, PaidIn(Run(h, Instantiated(owner), rest).1, stage), length, leaves, nodes);
      }
    }
  }
}
