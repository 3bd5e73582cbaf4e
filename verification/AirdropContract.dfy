/** The airdrop contract as it runs: storage fields that the calls update in place. */
module AirdropContract {
  import opened Outcomes
  import opened Bytes
  import opened Airdrop

  datatype Ordering = Less | Equal | Greater

  lemma LexFirstDifference(a: ByteString, b: ByteString, i: nat)
    requires i < |a| && i < |b| && a[..i] == b[..i] && a[i] != b[i]
    ensures LexLess(a, b) <==> a[i] < b[i]
    ensures LexLess(b, a) <==> b[i] < a[i]
  {
    LexSkips(a, b, i);
    LexSkips(b, a, i);
  }

  method BytesCmp(a: Hash, b: Hash) returns (c: Ordering)
    ensures c.Less? <==> LexLess(a, b)
    ensures c.Greater? <==> LexLess(b, a)
    ensures c.Equal? <==> a == b
  {
    LexTotal(a, b);
    var i := 0;
    while i < 32
      invariant i <= 32 && a[..i] == b[..i]
    {
      if a[i] > b[i] {
        LexFirstDifference(a, b, i);
        return Greater;
      } else if a[i] < b[i] {
        LexFirstDifference(a, b, i);
        return Less;
      }
      i := i + 1;
    }
    assert a == a[..32] == b[..32] == b;
    return Equal;
  }

  /** One bad entry makes the whole proof unreadable. */
  lemma {:induction false} DecodeFailsFrom(proof: seq<string>, n: nat)
    requires n <= |proof| && DecodeProof(proof[..n]).None?
    ensures DecodeProof(proof).None?
    decreases |proof| - n
  {
    if n == |proof| {
      assert proof[..n] == proof;
    } else {
      assert proof[..n + 1][..n] == proof[..n];
      DecodeFailsFrom(proof, n + 1);
    }
  }

  /** The verification loop: each proof entry is decoded and hashed together with the hash so far. */
  method ClimbProof(hasher: Hasher, leaf: Hash, proof: seq<string>) returns (r: Result<Hash, Error>)
    ensures r == if DecodeProof(proof).None? then Err(InvalidHexProof)
                 else Ok(Climb(hasher, leaf, DecodeProof(proof).value))
  {
    var hash := leaf;
    for i := 0 to |proof|
      invariant DecodeProof(proof[..i]).Some?
      invariant hash == Climb(hasher, leaf, DecodeProof(proof[..i]).value)
    {
      assert proof[..i + 1][..i] == proof[..i];
      var decoded := HexDecode(proof[i], 32);
      if decoded.None? {
        DecodeFailsFrom(proof, i + 1);
        return Err(InvalidHexProof);
      }
      ghost var before := DecodeProof(proof[..i]).value;
      assert (before + [decoded.value])[..|before|] == before;
      var c := BytesCmp(hash, decoded.value);
      hash := if c.Less? then hasher(hash + decoded.value) else hasher(decoded.value + hash);
    }
    assert proof[..|proof|] == proof;
    return Ok(hash);
  }

  class Contract {
    const hasher: Hasher
    const owner: Addr
    var latestStage: nat
    var roots: map<nat, string>
    var claimed: set<(Addr, nat)>

    function Stored(): Storage
      reads this
    {
      Storage(owner, latestStage, roots, claimed)
    }

    constructor (hasher: Hasher, owner: Addr)
      ensures Stored() == Instantiated(owner) && this.hasher == hasher
    {
      this.hasher, this.owner := hasher, owner;
      latestStage, roots, claimed := 0, map[], {};
    }

    ghost predicate Performed(before: Storage, op: Op, r: Result<nat, Error>)
      reads this
    {
      match Step(hasher, before, op)
      case Ok((after, amount)) => r == Ok(amount) && Stored() == after
      case Err(e) => r == Err(e) && Stored() == before
    }

    method RegisterMerkleRoot(sender: Addr, root: string) returns (r: Result<nat, Error>)
      modifies this
      ensures Performed(old(Stored()), RegisterRoot(sender, root), r)
    {
      if sender != owner {
        return Err(Unauthorized);
      }
      if HexDecode(root, 32).None? {
        return Err(InvalidHexMerkle);
      }
      if latestStage >= LAST_STAGE {
        return Err(StageOverflow);
      }
      var stage := latestStage + 1;
      roots := roots[stage := root];
      latestStage := stage;
      return Ok(0);
    }

    method ClaimTokens(sender: Addr, stage: nat, amount: nat, proof: seq<string>) returns (r: Result<nat, Error>)
      modifies this
      ensures Performed(old(Stored()), Claim(sender, stage, amount, proof), r)
    {
      if stage !in roots {
        return Err(NoRoot);
      }
      if (sender, stage) in claimed {
        return Err(AlreadyClaimed);
      }
      var hash :- ClimbProof(hasher, hasher(sender + Digits(amount)), proof);
      var root := HexDecode(roots[stage], 32);
      if root.None? {
        return Err(UnreadableRoot);
      }
      if root.value != hash {
        return Err(MerkleVerification);
      }
      claimed := claimed + {(sender, stage)};
      return Ok(amount);
    }

    /** A whole call. It numbers stages without gaps, changes no root and forgets no claim. */
    method Execute(op: Op) returns (r: Result<nat, Error>)
      modifies this
      ensures Performed(old(Stored()), op, r)
      ensures WellFormed(old(Stored())) ==>
                && WellFormed(Stored()) && r != Err(UnreadableRoot)
                && (forall s | s in old(roots) :: s in roots && roots[s] == old(roots)[s])
                && old(claimed) <= claimed
    {
      ghost var before := Stored();
      match op {
        case RegisterRoot(sender, root) => r := RegisterMerkleRoot(sender, root);
        case Claim(sender, stage, amount, proof) => r := ClaimTokens(sender, stage, amount, proof);
      }
      if WellFormed(before) {
        StepKeepsRoots(hasher, before, op);
      }
    }
  }
}
