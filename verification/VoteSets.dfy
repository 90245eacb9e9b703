/** Vote storage, equivocation evidence and quorum counting (src/vote_set.py). */
module VoteSets {
  import opened Wrappers
  import opened Ordering
  import opened Votes

  datatype VoteKey = VoteKey(height: int, round: int, phase: Bytes, validator: Bytes)

  type Stored = map<VoteKey, Vote>

  datatype EquivocationRecord = EquivocationRecord(key: VoteKey, first: Vote, conflicting: Vote)

  datatype AddResult =
    | Accepted(stored: Vote) | DuplicateIgnored(stored: Vote)
    | EquivocationDetected(stored: Vote, evidence: EquivocationRecord)

  function KeyOf(v: Vote): VoteKey {
    VoteKey(v.height, v.round, v.phase, v.validatorPubkey)
  }

  /** The first vote of a key stays. */
  function Keep(votes: Stored, v: Vote): Stored {
    if KeyOf(v) in votes then votes else votes[KeyOf(v) := v]
  }

  ghost predicate WellKeyed(votes: Stored) {
    forall k :: k in votes ==> KeyOf(votes[k]) == k
  }

  function Threshold(n: int): int
    requires n >= 1
  {
    2 * ((n - 1) / 3) + 1
  }

  /** v is a non-NIL vote of the slot, for the given block if one is given. */
  predicate Supports(v: Vote, height: int, round: int, phase: Bytes, block: Option<Bytes>) {
    v.height == height && v.round == round && v.phase == phase && v.block.Some? && (block.Some? ==> v.block == block)
  }

  /** The distinct validators whose stored vote supports the block. */
  ghost function Voters(votes: Stored, height: int, round: int, phase: Bytes, block: Option<Bytes>): set<Bytes> {
    set k | k in votes && Supports(votes[k], height, round, phase, block) :: votes[k].validatorPubkey
  }

  ghost predicate HasQuorum(votes: Stored, height: int, round: int, phase: Bytes, n: int, block: Option<Bytes>)
    requires n >= 1
  {
    |Voters(votes, height, round, phase, block)| >= Threshold(n)
  }

  /** The blocks that have a quorum in a slot. */
  ghost function QuorumBlocks(votes: Stored, height: int, round: int, phase: Bytes, n: int): set<Bytes>
    requires n >= 1
  {
    set k | k in votes && votes[k].block.Some? && HasQuorum(votes, height, round, phase, n, votes[k].block)
      :: votes[k].block.value
  }

  /** A block has a quorum exactly when it is among them: a quorum is never empty. */
  lemma QuorumBlocksMeans(votes: Stored, height: int, round: int, phase: Bytes, n: int, b: Bytes)
    requires n >= 1
    ensures b in QuorumBlocks(votes, height, round, phase, n) <==> HasQuorum(votes, height, round, phase, n, Some(b))
  {
    if HasQuorum(votes, height, round, phase, n, Some(b)) {
      var voters := Voters(votes, height, round, phase, Some(b));
      assert voters != {};
      var p :| p in voters;
      var k :| k in votes && Supports(votes[k], height, round, phase, Some(b)) && votes[k].validatorPubkey == p;
      assert votes[k].block == Some(b);
    }
  }

  /** Without a block asked for, the validators counted are those counted for one block or another: NIL never counts. */
  lemma VotersOfAnyBlock(votes: Stored, height: int, round: int, phase: Bytes, p: Bytes)
    ensures p in Voters(votes, height, round, phase, None) <==>
            exists b :: p in Voters(votes, height, round, phase, Some(b))
  {
    if p in Voters(votes, height, round, phase, None) {
      var k :| k in votes && Supports(votes[k], height, round, phase, None) && votes[k].validatorPubkey == p;
      assert Supports(votes[k], height, round, phase, votes[k].block);
      assert p in Voters(votes, height, round, phase, Some(votes[k].block.value));
    }
    if b :| p in Voters(votes, height, round, phase, Some(b)) {
      var k :| k in votes && Supports(votes[k], height, round, phase, Some(b)) && votes[k].validatorPubkey == p;
      assert Supports(votes[k], height, round, phase, None);
    }
  }

  predicate InSlot(k: VoteKey, height: int, round: int, phase: Bytes) {
    k.height == height && k.round == round && k.phase == phase
  }

  ghost function Signers(votes: Stored, height: int, round: int, phase: Bytes): set<Bytes> {
    set k | k in votes && InSlot(k, height, round, phase) :: k.validator
  }

  /** r lists the stored votes of the slot, sorted by validator. */
  ghost predicate Listing(r: seq<Vote>, votes: Stored, height: int, round: int, phase: Bytes) {
    var order := Sorted(Signers(votes, height, round, phase));
    |r| == |order| && forall i :: 0 <= i < |r| ==>
      VoteKey(height, round, phase, order[i]) in votes && r[i] == votes[VoteKey(height, round, phase, order[i])]
  }

  /** The listing leaves no vote of the slot out. */
  lemma ListingIsComplete(r: seq<Vote>, votes: Stored, height: int, round: int, phase: Bytes, k: VoteKey)
    requires Listing(r, votes, height, round, phase)
    requires k in votes && InSlot(k, height, round, phase)
    ensures votes[k] in r
  {
    var signers := Signers(votes, height, round, phase);
    var order := Sorted(signers);
    assert k.validator in signers;
    assert k.validator in Elements(order);
    var j :| 0 <= j < |order| && order[j] == k.validator;
    assert k == VoteKey(height, round, phase, order[j]);
  }

  class VoteSet {
    var votes: Stored
    var equivocations: seq<EquivocationRecord>

    constructor ()
      ensures votes == map[] && equivocations == []
    {
      votes, equivocations := map[], [];
    }

    /** The first vote of a key is kept; the same statement again is ignored; a conflicting one is rejected
        and recorded. */
    method Add(v: Vote) returns (r: AddResult)
      modifies this
      ensures votes == Keep(old(votes), v)
      ensures r.stored == votes[KeyOf(v)]
      ensures r.Accepted? <==> KeyOf(v) !in old(votes)
      ensures r.EquivocationDetected? <==> KeyOf(v) in old(votes) && old(votes)[KeyOf(v)].block != v.block
      ensures equivocations == if r.EquivocationDetected? then old(equivocations) + [r.evidence] else old(equivocations)
      ensures r.EquivocationDetected? ==> r.evidence == EquivocationRecord(KeyOf(v), r.stored, v)
    {
      var key := KeyOf(v);
      if key !in votes {
        votes := votes[key := v];
        return Accepted(v);
      }
      var existing := votes[key];
      if existing.block == v.block {
        return DuplicateIgnored(existing);
      }
      var record := EquivocationRecord(key, existing, v);
      equivocations := equivocations + [record];
      return EquivocationDetected(existing, record);
    }

    /** `votes`: the votes of a slot, in the order of the validators' keys. */
    method VotesOf(height: int, round: int, phase: Bytes) returns (r: seq<Vote>)
      ensures Listing(r, votes, height, round, phase)
    {
      var signers := set k | k in votes && InSlot(k, height, round, phase) :: k.validator;
      assert signers == Signers(votes, height, round, phase);
      var order := SortSet(signers);
      r := [];
      for i := 0 to |order|
        invariant |r| == i
        invariant forall j :: 0 <= j < i ==>
                    VoteKey(height, round, phase, order[j]) in votes
                     && r[j] == votes[VoteKey(height, round, phase, order[j])]
      {
        assert order[i] in Elements(order);
        r := r + [votes[VoteKey(height, round, phase, order[i])]];
      }
    }

    /** The counting loop. None stands for the ValueError on n < 1. */
    method CountQuorum(height: int, round: int, phase: Bytes, n: int, block: Option<Bytes>) returns (r: Option<bool>)
      ensures r == if n < 1 then None else Some(HasQuorum(votes, height, round, phase, n, block))
    {
      if n < 1 {
        return None;
      }
      var f := (n - 1) / 3;
      var threshold := 2 * f + 1;
      var distinct: set<Bytes> := {};
      var rest := votes.Keys;
      while rest != {}
        invariant rest <= votes.Keys
        invariant distinct == set k | k in votes.Keys - rest && Supports(votes[k], height, round, phase, block)
                                :: votes[k].validatorPubkey
        decreases |rest|
      {
        var k :| k in rest;
        var v := votes[k];
        ghost var before := votes.Keys - rest;
        rest := rest - {k};
        assert votes.Keys - rest == before + {k};
        if Supports(v, height, round, phase, block) {
          distinct := distinct + {v.validatorPubkey};
        }
      }
      assert votes.Keys - rest == votes.Keys;
      assert distinct == Voters(votes, height, round, phase, block);
      return Some(|distinct| >= threshold);
    }
  }
}
