/** Safety of the vote log. The log holds every vote ever signed, in order. LogOk says what each vote of a correct
    validator owes to the votes signed before it; from that alone no two blocks can be finalized at one height. */
module VoteLog {
  import opened Wrappers
  import opened Ordering
  import opened Votes
  import opened VoteSets
  import opened VoteCounting

  /** The validators, and the ones that may sign anything. The hypothesis is that any two quorums share more
      validators than are byzantine. */
  datatype Committee = Committee(validators: set<Bytes>, byzantine: set<Bytes>) {

    ghost predicate Valid() {
      |validators| >= 1 && byzantine <= validators
      && |byzantine| < 2 * Threshold(|validators|) - |validators|
    }

    ghost predicate Honest(p: Bytes) {
      p in validators && p !in byzantine
    }
  }

  /** With n == 3f + 1 validators the hypothesis is the usual one: at most f are byzantine. */
  lemma UsualBound(k: Committee, f: nat)
    requires |k.validators| == 3 * f + 1 && k.byzantine <= k.validators
    ensures k.Valid() <==> |k.byzantine| <= f
  {
    assert Threshold(3 * f + 1) == 2 * f + 1;
  }

  /** The signers of votes for a block in a slot. */
  ghost function LogVoters(log: seq<Vote>, height: int, round: int, phase: Bytes, block: Bytes): set<Bytes> {
    set v | v in log && Supports(v, height, round, phase, Some(block)) :: v.validatorPubkey
  }

  ghost predicate LogQuorum(k: Committee, log: seq<Vote>, height: int, round: int, phase: Bytes, block: Bytes)
    requires |k.validators| >= 1
  {
    |LogVoters(log, height, round, phase, block)| >= Threshold(|k.validators|)
  }

  ghost predicate NotAfter(v: Vote, height: int, round: int) {
    v.height < height || (v.height == height && v.round <= round)
  }

  /** The new prevote is free of what the signer precommitted before: it is for the same block, or for one that
      gathered a prevote quorum in a later round, not beyond the current one. */
  ghost predicate Released(k: Committee, log: seq<Vote>, precommit: Vote, v: Vote)
    requires |k.validators| >= 1 && v.block.Some?
  {
    v.block == precommit.block
    || exists x :: precommit.round < x <= v.round && LogQuorum(k, log, v.height, x, PREVOTE, v.block.value)
  }

  /** w is a non-NIL precommit of the same validator at the same height, in an earlier round. */
  ghost predicate EarlierPrecommit(w: Vote, v: Vote) {
    w.validatorPubkey == v.validatorPubkey && w.phase == PRECOMMIT && w.block.Some?
    && w.height == v.height && w.round < v.round
  }

  /** What a vote of a correct validator owes to the log before it. */
  ghost predicate Admissible(k: Committee, log: seq<Vote>, v: Vote)
    requires |k.validators| >= 1
  {
    v.validatorPubkey in k.validators
    && (k.Honest(v.validatorPubkey) ==>
      && (forall w :: w in log && w.validatorPubkey == v.validatorPubkey ==>
            KeyOf(w) != KeyOf(v) && NotAfter(w, v.height, v.round))
      && (v.phase == PRECOMMIT && v.block.Some? ==> LogQuorum(k, log, v.height, v.round, PREVOTE, v.block.value))
      && (v.phase == PREVOTE && v.block.Some? ==>
            forall w :: w in log && EarlierPrecommit(w, v) ==> Released(k, log, w, v)))
  }

  ghost predicate LogOk(k: Committee, log: seq<Vote>)
    requires |k.validators| >= 1
  {
    forall i :: 0 <= i < |log| ==> Admissible(k, log[..i], log[i])
  }

  lemma AdmissibleAt(k: Committee, log: seq<Vote>, i: nat)
    requires |k.validators| >= 1 && LogOk(k, log) && i < |log|
    ensures Admissible(k, log[..i], log[i])
  {
    hide Admissible;
  }

  lemma EarlierIsIn(log: seq<Vote>, i: nat, j: nat)
    requires i < j <= |log|
    ensures log[i] in log[..j]
  {
    assert log[..j][i] == log[i];
  }

  lemma LogGrows(k: Committee, log: seq<Vote>, v: Vote)
    requires |k.validators| >= 1 && LogOk(k, log) && Admissible(k, log, v)
    ensures LogOk(k, log + [v])
  {
    hide Admissible;
    var next := log + [v];
    forall i | 0 <= i < |next| ensures Admissible(k, next[..i], next[i]) {
      if i < |log| {
        assert next[..i] == log[..i];
      } else {
        assert next[..i] == log;
      }
    }
  }

  /** Quorums are never lost as the log grows. */
  lemma LogQuorumGrows(k: Committee, log: seq<Vote>, more: seq<Vote>, height: int, round: int, phase: Bytes,
                       block: Bytes)
    requires |k.validators| >= 1 && LogQuorum(k, log, height, round, phase, block)
    ensures LogQuorum(k, log + more, height, round, phase, block)
  {
    SubsetSize(LogVoters(log, height, round, phase, block), LogVoters(log + more, height, round, phase, block));
  }

  lemma LogPrefixOk(k: Committee, log: seq<Vote>, n: nat)
    requires |k.validators| >= 1 && LogOk(k, log) && n <= |log|
    ensures LogOk(k, log[..n])
  {
    hide Admissible;
    forall i | 0 <= i < n ensures Admissible(k, log[..n][..i], log[..n][i]) {
      assert log[..n][..i] == log[..i];
    }
  }

  lemma SignersAreValidators(k: Committee, log: seq<Vote>, height: int, round: int, phase: Bytes, block: Bytes)
    requires |k.validators| >= 1 && LogOk(k, log)
    ensures LogVoters(log, height, round, phase, block) <= k.validators
  {
    forall v | v in log ensures v.validatorPubkey in k.validators {
      var i :| 0 <= i < |log| && log[i] == v;
      AdmissibleAt(k, log, i);
    }
  }

  /** Any two quorums of the log, or of a prefix of it, share a correct validator. */
  lemma HonestOverlap(k: Committee, log: seq<Vote>, m: nat, height: int, round: int, phase: Bytes, block: Bytes,
                      height': int, round': int, phase': Bytes, block': Bytes) returns (i: nat, j: nat)
    requires k.Valid() && LogOk(k, log) && m <= |log|
    requires LogQuorum(k, log, height, round, phase, block)
    requires LogQuorum(k, log[..m], height', round', phase', block')
    ensures i < |log| && j < m
    ensures Supports(log[i], height, round, phase, Some(block))
    ensures Supports(log[j], height', round', phase', Some(block'))
    ensures log[i].validatorPubkey == log[j].validatorPubkey && k.Honest(log[i].validatorPubkey)
  {
    hide LogOk, LogVoters;
    var A, B := LogVoters(log, height, round, phase, block), LogVoters(log[..m], height', round', phase', block');
    SignersAreValidators(k, log, height, round, phase, block);
    LogPrefixOk(k, log, m);
    SignersAreValidators(k, log[..m], height', round', phase', block');
    Overlap(A, B, k.validators);
    var p := Outside(A * B, k.byzantine);
    assert log[..|log|] == log;
    i := VoteOf(log, |log|, height, round, phase, block, p);
    j := VoteOf(log, m, height', round', phase', block', p);
  }

  lemma Outside(a: set<Bytes>, b: set<Bytes>) returns (p: Bytes)
    requires |a| > |b|
    ensures p in a && p !in b
  {
    if a <= b {
      SubsetSize(a, b);
      assert false;
    }
    p :| p in a && p !in b;
  }

  lemma VoteOf(log: seq<Vote>, m: nat, height: int, round: int, phase: Bytes, block: Bytes, p: Bytes) returns (i: nat)
    requires m <= |log| && p in LogVoters(log[..m], height, round, phase, block)
    ensures i < m && Supports(log[i], height, round, phase, Some(block)) && log[i].validatorPubkey == p
  {
    var v :| v in log[..m] && Supports(v, height, round, phase, Some(block)) && v.validatorPubkey == p;
    i :| 0 <= i < m && log[..m][i] == v;
  }

  /** A correct validator has one vote per slot in the whole log. */
  lemma OneVotePerSlot(k: Committee, log: seq<Vote>, i: nat, j: nat)
    requires |k.validators| >= 1 && LogOk(k, log) && i < |log| && j < |log|
    requires k.Honest(log[i].validatorPubkey) && KeyOf(log[i]) == KeyOf(log[j])
    ensures i == j
  {
    if i < j {
      AdmissibleAt(k, log, j);
      EarlierIsIn(log, i, j);
    } else if j < i {
      AdmissibleAt(k, log, i);
      EarlierIsIn(log, j, i);
    }
  }

  /** One slot has at most one block with a quorum. */
  lemma SlotQuorumIsUnique(k: Committee, log: seq<Vote>, height: int, round: int, phase: Bytes, b: Bytes, b': Bytes)
    requires k.Valid() && LogOk(k, log)
    requires LogQuorum(k, log, height, round, phase, b) && LogQuorum(k, log, height, round, phase, b')
    ensures b == b'
  {
    hide LogOk, LogQuorum;
    assert log[..|log|] == log;
    var i, j := HonestOverlap(k, log, |log|, height, round, phase, b, height, round, phase, b');
    OneVotePerSlot(k, log, i, j);
  }

  /** The lock lemma: once the log holds a precommit quorum for b at a round, no later round ever has a prevote
      quorum for another block. The descent is on the round, then on the position in the log. */
  lemma {:induction false} LockLemma(k: Committee, log: seq<Vote>, m: nat, height: int, round: int, b: Bytes,
                                     later: int, b': Bytes)
    requires k.Valid() && LogOk(k, log) && m <= |log| && round < later
    requires LogQuorum(k, log, height, round, PRECOMMIT, b)
    requires LogQuorum(k, log[..m], height, later, PREVOTE, b')
    ensures b == b'
    decreases later - round, m
  {
    hide LogOk, LogQuorum;
    var i, j := HonestOverlap(k, log, m, height, round, PRECOMMIT, b, height, later, PREVOTE, b');
    AdmissibleAt(k, log, i);
    AdmissibleAt(k, log, j);
    if j < i {
      EarlierIsIn(log, j, i);
      assert false;
    }
    EarlierIsIn(log, i, j);
    assert Released(k, log[..j], log[i], log[j]);
    if b != b' {
      var x :| round < x <= later && LogQuorum(k, log[..j], height, x, PREVOTE, b');
      LockLemma(k, log, j, height, round, b, x, b');
    }
  }

  /** Two precommit quorums at one height, in whatever rounds, are for the same block. */
  lemma PrecommitQuorumsAgree(k: Committee, log: seq<Vote>, height: int, round: int, b: Bytes, round': int, b': Bytes)
    requires k.Valid() && LogOk(k, log) && round <= round'
    requires LogQuorum(k, log, height, round, PRECOMMIT, b) && LogQuorum(k, log, height, round', PRECOMMIT, b')
    ensures b == b'
  {
    hide LogOk, LogQuorum;
    if round == round' {
      SlotQuorumIsUnique(k, log, height, round, PRECOMMIT, b, b');
    } else {
      assert log[..|log|] == log;
      var i, j := HonestOverlap(k, log, |log|, height, round', PRECOMMIT, b', height, round', PRECOMMIT, b');
      AdmissibleAt(k, log, i);
      LockLemma(k, log, i, height, round, b, round', b');
    }
  }
}
