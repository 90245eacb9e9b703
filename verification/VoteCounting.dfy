/** What vote storage guarantees about counting: order, duplication and conflicting votes do not matter, a
    quorum is never lost, and when two blocks can both have one. */
module VoteCounting {
  import opened Wrappers
  import opened Ordering
  import opened Votes
  import opened VoteSets

  /** The stored votes after receiving a list in order. */
  function AddAll(votes: Stored, list: seq<Vote>): Stored {
    if list == [] then votes else Keep(AddAll(votes, list[..|list| - 1]), list[|list| - 1])
  }

  /** The block named under each key; signatures aside, this is all a quorum looks at. */
  function BlocksOf(votes: Stored): map<VoteKey, Option<Bytes>> {
    map k | k in votes :: votes[k].block
  }

  ghost predicate NoEquivocation(list: seq<Vote>) {
    forall v, w :: v in list && w in list && KeyOf(v) == KeyOf(w) ==> v.block == w.block
  }

  /** Some vote of the list names the block under the key. */
  ghost predicate Says(list: seq<Vote>, k: VoteKey, block: Option<Bytes>) {
    exists v :: v in list && KeyOf(v) == k && v.block == block
  }

  /** Both lists make the same statements, in any order and any number of times. */
  ghost predicate SameStatements(a: seq<Vote>, b: seq<Vote>) {
    forall k, block :: Says(a, k, block) <==> Says(b, k, block)
  }

  lemma {:induction false} AddAllKeeps(votes: Stored, list: seq<Vote>)
    requires WellKeyed(votes)
    ensures WellKeyed(AddAll(votes, list))
    ensures forall k :: k in votes ==> k in AddAll(votes, list) && AddAll(votes, list)[k] == votes[k]
    ensures forall v :: v in list ==> KeyOf(v) in AddAll(votes, list)
    ensures forall k :: k in AddAll(votes, list) && k !in votes ==> AddAll(votes, list)[k] in list
  {
    if list != [] {
      AddAllKeeps(votes, list[..|list| - 1]);
      assert list == list[..|list| - 1] + [list[|list| - 1]];
    }
  }

  /** Without equivocation, the stored block of a key is what the list says about it. */
  lemma StoredIsSaid(list: seq<Vote>, k: VoteKey, block: Option<Bytes>)
    requires NoEquivocation(list)
    ensures var votes := AddAll(map[], list); (k in votes && votes[k].block == block) <==> Says(list, k, block)
  {
    hide AddAll;
    AddAllKeeps(map[], list);
    var votes := AddAll(map[], list);
    if Says(list, k, block) {
      var v :| v in list && KeyOf(v) == k && v.block == block;
      assert k in votes && votes[k] in list;
    }
  }

  lemma SaysKeepsNoEquivocation(a: seq<Vote>, b: seq<Vote>)
    requires NoEquivocation(a) && SameStatements(a, b)
    ensures NoEquivocation(b)
  {
    forall v, w | v in b && w in b && KeyOf(v) == KeyOf(w) ensures v.block == w.block {
      assert Says(b, KeyOf(v), v.block) && Says(b, KeyOf(w), w.block);
      assert Says(a, KeyOf(v), v.block) && Says(a, KeyOf(w), w.block);
    }
  }

  lemma SameBlocks(a: seq<Vote>, b: seq<Vote>)
    requires NoEquivocation(a) && SameStatements(a, b)
    ensures BlocksOf(AddAll(map[], a)) == BlocksOf(AddAll(map[], b))
  {
    hide AddAll, NoEquivocation, Says;
    SaysKeepsNoEquivocation(a, b);
    var A, B := AddAll(map[], a), AddAll(map[], b);
    forall k ensures (k in A <==> k in B) && (k in A ==> A[k].block == B[k].block) {
      if k in A {
        StoredIsSaid(a, k, A[k].block);
        StoredIsSaid(b, k, A[k].block);
      }
      if k in B {
        StoredIsSaid(a, k, B[k].block);
        StoredIsSaid(b, k, B[k].block);
      }
    }
  }

  lemma VotersFromBlocks(a: Stored, b: Stored, height: int, round: int, phase: Bytes, block: Option<Bytes>)
    requires WellKeyed(a) && WellKeyed(b) && BlocksOf(a) == BlocksOf(b)
    ensures Voters(a, height, round, phase, block) == Voters(b, height, round, phase, block)
  {
    forall k ensures k in a <==> k in b {
      assert k in BlocksOf(a) <==> k in BlocksOf(b);
    }
    forall k | k in a ensures a[k].block == b[k].block {
      assert BlocksOf(a)[k] == BlocksOf(b)[k];
    }
  }

  /** Without equivocation, any reordering and duplication of the votes received leaves the same stored
      blocks and the same quorum answers. */
  lemma OrderAndDuplicationAreIrrelevant(a: seq<Vote>, b: seq<Vote>, height: int, round: int, phase: Bytes, n: int,
                                         block: Option<Bytes>)
    requires NoEquivocation(a) && SameStatements(a, b) && n >= 1
    ensures BlocksOf(AddAll(map[], a)) == BlocksOf(AddAll(map[], b))
    ensures HasQuorum(AddAll(map[], a), height, round, phase, n, block)
        <==> HasQuorum(AddAll(map[], b), height, round, phase, n, block)
  {
    AddAllKeeps(map[], a);
    AddAllKeeps(map[], b);
    SameBlocks(a, b);
    VotersFromBlocks(AddAll(map[], a), AddAll(map[], b), height, round, phase, block);
  }

  lemma {:induction false} SubsetSize<T>(a: set<T>, b: set<T>)
    requires a <= b
    ensures |a| <= |b|
  {
    assert b == a + (b - a);
    assert |b| == |a| + |b - a|;
  }

  /** A quorum, once reached, survives every further vote, conflicting ones included. */
  lemma QuorumIsForever(votes: Stored, list: seq<Vote>, height: int, round: int, phase: Bytes, n: int,
                        block: Option<Bytes>)
    requires WellKeyed(votes) && n >= 1 && HasQuorum(votes, height, round, phase, n, block)
    ensures HasQuorum(AddAll(votes, list), height, round, phase, n, block)
  {
    AddAllKeeps(votes, list);
    SubsetSize(Voters(votes, height, round, phase, block), Voters(AddAll(votes, list), height, round, phase, block));
  }

  // ---------- one quorum per slot ----------

  lemma Overlap<T>(a: set<T>, b: set<T>, all: set<T>)
    requires a <= all && b <= all
    ensures |a * b| >= |a| + |b| - |all|
  {
    SubsetSize(a + b, all);
    assert |a + b| == |a| + |b| - |a * b|;
  }

  ghost predicate SignedBy(votes: Stored, validators: set<Bytes>) {
    forall k :: k in votes ==> k.validator in validators
  }

  /** At most one block per slot can have a quorum, whatever the validators sent. */
  ghost predicate QuorumsAreUnique(validators: set<Bytes>)
    requires |validators| >= 1
  {
    forall votes: Stored, height, round, phase, b, b' ::
      WellKeyed(votes) && SignedBy(votes, validators)
      && HasQuorum(votes, height, round, phase, |validators|, Some(b))
      && HasQuorum(votes, height, round, phase, |validators|, Some(b'))
      ==> b == b'
  }

  lemma ThresholdIsMajority(n: int)
    requires n >= 1
    ensures 2 * Threshold(n) > n <==> n != 2 && n != 3 && n != 6
  {
  }

  lemma UniqueQuorum(votes: Stored, validators: set<Bytes>, height: int, round: int, phase: Bytes, b: Bytes, b': Bytes)
    requires |validators| >= 1 && |validators| != 2 && |validators| != 3 && |validators| != 6
    requires WellKeyed(votes) && SignedBy(votes, validators)
    requires HasQuorum(votes, height, round, phase, |validators|, Some(b))
    requires HasQuorum(votes, height, round, phase, |validators|, Some(b'))
    ensures b == b'
  {
    var A, B := Voters(votes, height, round, phase, Some(b)), Voters(votes, height, round, phase, Some(b'));
    assert A <= validators && B <= validators by {
      forall k | k in votes ensures votes[k].validatorPubkey in validators {
        assert KeyOf(votes[k]) == k;
      }
    }
    Overlap(A, B, validators);
    ThresholdIsMajority(|validators|);
    assert A * B != {};
    var p :| p in A * B;
    var k :| k in votes && Supports(votes[k], height, round, phase, Some(b)) && votes[k].validatorPubkey == p;
    var k' :| k' in votes && Supports(votes[k'], height, round, phase, Some(b')) && votes[k'].validatorPubkey == p;
    assert KeyOf(votes[k]) == k && KeyOf(votes[k']) == k';
    assert k == k';
  }

  lemma {:induction false} SubsetOfSize<T>(s: set<T>, k: nat) returns (r: set<T>)
    requires k <= |s|
    ensures r <= s && |r| == k
  {
    if k == 0 {
      r := {};
    } else {
      var x :| x in s;
      r := SubsetOfSize(s - {x}, k - 1);
      r := r + {x};
    }
  }

  /** Two halves of the validators voting for two blocks. */
  lemma TwoQuorums(validators: set<Bytes>, A: set<Bytes>, B: set<Bytes>, phase: Bytes)
    requires |validators| >= 1 && A + B <= validators && A !! B
    requires |A| == |B| == Threshold(|validators|)
    ensures !QuorumsAreUnique(validators)
  {
    var votes: Stored := map p | p in A + B ::
      VoteKey(1, 0, phase, p) := Vote([], 1, 0, phase, Some(if p in A then [0] else [1]), p, []);
    forall p | p in A + B
      ensures VoteKey(1, 0, phase, p) in votes && votes[VoteKey(1, 0, phase, p)].validatorPubkey == p
      && votes[VoteKey(1, 0, phase, p)].block == Some(if p in A then [0] else [1])
    {
    }
    assert A <= Voters(votes, 1, 0, phase, Some([0])) by {
      forall p | p in A ensures p in Voters(votes, 1, 0, phase, Some([0])) {
        assert Supports(votes[VoteKey(1, 0, phase, p)], 1, 0, phase, Some([0]));
      }
    }
    assert B <= Voters(votes, 1, 0, phase, Some([1])) by {
      forall p | p in B ensures p in Voters(votes, 1, 0, phase, Some([1])) {
        assert Supports(votes[VoteKey(1, 0, phase, p)], 1, 0, phase, Some([1]));
      }
    }
    SubsetSize(A, Voters(votes, 1, 0, phase, Some([0])));
    SubsetSize(B, Voters(votes, 1, 0, phase, Some([1])));
    assert HasQuorum(votes, 1, 0, phase, |validators|, Some([0]));
    assert HasQuorum(votes, 1, 0, phase, |validators|, Some([1]));
    var b: Bytes, b': Bytes := [0], [1];
    assert b[0] != b'[0];
    assert WellKeyed(votes) && SignedBy(votes, validators);
  }

  /** Quorums are unique exactly when the number of validators is not 2, 3 or 6. */
  lemma UniqueExactlyWhen(validators: set<Bytes>)
    requires |validators| >= 1
    ensures QuorumsAreUnique(validators) <==> |validators| != 2 && |validators| != 3 && |validators| != 6
  {
    var n := |validators|;
    if n != 2 && n != 3 && n != 6 {
      forall votes: Stored, height, round, phase, b, b' |
        WellKeyed(votes) && SignedBy(votes, validators)
        && HasQuorum(votes, height, round, phase, n, Some(b)) && HasQuorum(votes, height, round, phase, n, Some(b'))
        ensures b == b'
      {
        UniqueQuorum(votes, validators, height, round, phase, b, b');
      }
    } else {
      var A := SubsetOfSize(validators, Threshold(n));
      var B := SubsetOfSize(validators - A, Threshold(n));
      TwoQuorums(validators, A, B, PREVOTE);
    }
  }
}
