/** The whole system: correct validators running the consensus functions, byzantine ones signing anything, and a
    network that may lose, duplicate, reorder and delay. No run finalizes two different blocks at one height. */
module Agreement {
  import opened Wrappers
  import opened Ordering
  import opened Crypto
  import opened Transactions
  import opened Blocks
  import opened Bodies
  import opened Ledgers
  import opened Chain
  import opened Votes
  import opened VoteSets
  import opened VoteCounting
  import opened BlockStores
  import opened Consensus
  import opened VoteLog

  /** `keys` gives each validator's signing oracle. */
  datatype Params = Params(
    c: Primitives, cfg: ExecutionConfig, chainId: Bytes, committee: Committee, keys: Bytes -> (Bytes -> Bytes))

  datatype Replica = Replica(node: Node, sent: set<Slot>, ledger: LedgerState)

  /** One replica per correct validator, and every vote signed so far. A vote in the log may reach any replica at
      any later time, any number of times, or never. */
  datatype System = System(replicas: map<Bytes, Replica>, log: seq<Vote>)

  /** What a correct validator does in one step, in the order the drivers use. Locking at the current round and
      precommitting are one step. */
  datatype Action =
    | GetPrevote(vote: Vote) | GetPrecommit(vote: Vote)
    | GetHeader(header: BlockHeader) | GetBody(hash: Bytes, txs: seq<Transaction>)
    | Prevote(proposed: Bytes) | TimeoutPrevote
    | LockOnly | LockAndPrecommit
    | FinalizeStep(writeFails: bool) | NextRound

  datatype Step = Adversary(vote: Vote) | Correct(p: Bytes, action: Action)

  function Count(P: Params): int {
    |P.committee.validators|
  }

  function SignerOf(P: Params, p: Bytes): Signer {
    Signer(P.chainId, p, P.keys(p))
  }

  function SlotOf(v: Vote): Slot {
    Slot(v.height, v.round, v.phase)
  }

  /** `try_finalize`, and the tracker's `reset_height` when it succeeds. The write to disk may fail. */
  ghost function AfterFinalize(P: Params, r: Replica, writeFails: bool): Replica
    requires Count(P) >= 1
  {
    var (node, ledger, out) :=
      TryFinalize(P.c, P.cfg, r.node, r.ledger, Count(P), if writeFails then WriteFails else NoFault);
    Replica(node, if out.Finalized? then Prune(r.sent, node.height) else r.sent, ledger)
  }

  /** One action of a correct validator: its new state and the vote it broadcasts; None when not enabled.
      A node admits a prevote only for a block whose header it holds, prevotes only such a block, and asks its
      tracker before every vote. */
  ghost function Act(P: Params, p: Bytes, r: Replica, log: seq<Vote>, a: Action): Option<(Replica, Option<Vote>)>
    requires Count(P) >= 1
  {
    var node, n := r.node, Count(P);
    match a
    case GetPrevote(v) =>
      if v in log && (v.block.Some? ==> v.block.value in node.store.headers)
      then Some((r.(node := node.(prevotes := Keep(node.prevotes, v))), None)) else None
    case GetPrecommit(v) =>
      if v in log then Some((r.(node := node.(precommits := Keep(node.precommits, v))), None)) else None
    case GetHeader(header) =>
      Some((r.(node := node.(store := PutHeader(P.c, node.store, header).0)), None))
    case GetBody(hash, txs) =>
      Some((r.(node := node.(store := PutBody(node.store, hash, txs).0)), None))
    case Prevote(proposed) =>
      if Slot(node.height, node.round, PREVOTE) in r.sent || proposed !in node.store.headers then None
      else (match MakePrevote(node, SignerOf(P, p), proposed, n)
            case None => None
            case Some((node', v)) => Some((r.(node := node', sent := r.sent + {SlotOf(v)}), Some(v))))
    case TimeoutPrevote =>
      if Slot(node.height, node.round, PREVOTE) in r.sent then None
      else
        var v := SignedVote(SignerOf(P, p), node.height, node.round, PREVOTE, None);
        Some((r.(sent := r.sent + {SlotOf(v)}), Some(v)))
    case LockOnly =>
      Some((r.(node := ApplyLock(node, node.round, n).0), None))
    case LockAndPrecommit =>
      if Slot(node.height, node.round, PRECOMMIT) in r.sent then None
      else
        var (node', v) := MakePrecommit(ApplyLock(node, node.round, n).0, SignerOf(P, p), n);
        Some((r.(node := node', sent := r.sent + {SlotOf(v)}), Some(v)))
    case FinalizeStep(writeFails) =>
      Some((AfterFinalize(P, r, writeFails), None))
    case NextRound =>
      Some((r.(node := RoundChange(node)), None))
  }

  ghost predicate Init(P: Params, s: System) {
    (forall p :: p in s.replicas <==> P.committee.Honest(p))
    && s.log == []
    && forall p :: p in s.replicas ==>
         var r := s.replicas[p];
         r.node == Node(1, 0, None, None, None, Store(map[], map[]), map[], map[])
         && r.sent == {} && r.ledger == LedgerState(P.chainId, map[], r.ledger.stored, None)
  }

  ghost function Next(P: Params, s: System, step: Step): Option<System>
    requires Count(P) >= 1
  {
    match step
    case Adversary(v) =>
      if v.validatorPubkey in P.committee.byzantine then Some(s.(log := s.log + [v])) else None
    case Correct(p, a) =>
      if p !in s.replicas then None
      else match Act(P, p, s.replicas[p], s.log, a)
           case None => None
           case Some((r, None)) => Some(s.(replicas := s.replicas[p := r]))
           case Some((r, Some(v))) => Some(System(s.replicas[p := r], s.log + [v]))
  }

  /** The system after a run; None when some step was not enabled. */
  ghost function Reach(P: Params, s: System, steps: seq<Step>): Option<System>
    requires Count(P) >= 1
  {
    if steps == [] then Some(s)
    else match Reach(P, s, steps[..|steps| - 1])
         case None => None
         case Some(t) => Next(P, t, steps[|steps| - 1])
  }

  // ---------- the invariant ----------

  ghost predicate VotesOk(votes: Stored, log: seq<Vote>) {
    WellKeyed(votes) && forall k :: k in votes ==> votes[k] in log
  }

  ghost predicate PrevotesKnown(node: Node) {
    forall k :: k in node.prevotes && node.prevotes[k].block.Some? ==>
         node.prevotes[k].block.value in node.store.headers
  }

  ghost predicate LockOk(P: Params, node: Node, log: seq<Vote>)
    requires Count(P) >= 1
  {
    (node.lockedHash.Some? <==> node.lockedRound.Some?)
    && (node.lockedHash.Some? ==> node.lockedRound.value <= node.round)
    && (node.lockedHash.Some? ==>
          LogQuorum(P.committee, log, node.height, node.lockedRound.value, PREVOTE, node.lockedHash.value))
  }

  /** The lock is at least as late as every block this validator precommitted at the current height. */
  ghost predicate LockCovers(node: Node, w: Vote) {
    node.lockedHash.Some? && node.lockedRound.Some? && w.round <= node.lockedRound.value
    && (w.round == node.lockedRound.value ==> w.block == node.lockedHash)
  }

  ghost predicate OwnPrecommit(p: Bytes, height: int, w: Vote) {
    w.validatorPubkey == p && w.height == height && w.phase == PRECOMMIT && w.block.Some?
  }

  /** What a correct validator's state says about its own votes in the log. */
  ghost predicate OwnVoteOk(r: Replica, w: Vote) {
    NotAfter(w, r.node.height, r.node.round)
    && (w.height == r.node.height ==> SlotOf(w) in r.sent)
    && (w.height == r.node.height && w.phase == PRECOMMIT && w.block.Some? ==> LockCovers(r.node, w))
  }

  ghost predicate OwnVotesOk(p: Bytes, r: Replica, log: seq<Vote>) {
    forall w :: w in log && w.validatorPubkey == p ==> OwnVoteOk(r, w)
  }

  ghost predicate Decided(P: Params, log: seq<Vote>, h: int, b: Bytes)
    requires Count(P) >= 1
  {
    exists round :: LogQuorum(P.committee, log, h, round, PRECOMMIT, b)
  }

  /** Every stored entry was decided by a precommit quorum. */
  ghost predicate LedgerDecided(P: Params, L: LedgerState, log: seq<Vote>)
    requires Count(P) >= 1
  {
    forall h :: h in L.entries ==> Decided(P, log, h, L.entries[h].blockHash)
  }

  ghost predicate LedgerIsChain(P: Params, L: LedgerState) {
    L.chainId == P.chainId && exists H, blocks :: Healthy(P.c, P.cfg, L, H, blocks, 1)
  }

  ghost predicate ReplicaOk(P: Params, p: Bytes, r: Replica, log: seq<Vote>)
    requires Count(P) >= 1
  {
    && Keyed(P.c, r.node.store)
    && VotesOk(r.node.prevotes, log) && VotesOk(r.node.precommits, log) && PrevotesKnown(r.node)
    && LockOk(P, r.node, log) && OwnVotesOk(p, r, log)
    && LedgerDecided(P, r.ledger, log) && LedgerIsChain(P, r.ledger)
    && r.node.height == FinalizedHeight(r.ledger.entries) + 1
  }

  ghost predicate SystemOk(P: Params, s: System)
    requires Count(P) >= 1
  {
    (forall p :: p in s.replicas <==> P.committee.Honest(p))
    && LogOk(P.committee, s.log)
    && forall p :: p in s.replicas ==> ReplicaOk(P, p, s.replicas[p], s.log)
  }

  // ---------- quorums seen by a node are quorums of the log ----------

  lemma SeenIsLogged(P: Params, votes: Stored, log: seq<Vote>, height: int, round: int, phase: Bytes, b: Bytes)
    requires Count(P) >= 1 && VotesOk(votes, log)
    requires HasQuorum(votes, height, round, phase, Count(P), Some(b))
    ensures LogQuorum(P.committee, log, height, round, phase, b)
  {
    SubsetSize(Voters(votes, height, round, phase, Some(b)), LogVoters(log, height, round, phase, b));
  }

  lemma KeepOk(votes: Stored, log: seq<Vote>, more: seq<Vote>, v: Vote)
    requires VotesOk(votes, log) && v in log + more
    ensures VotesOk(Keep(votes, v), log + more)
  {
  }

  // ---------- growing the log leaves the other replicas fine ----------

  lemma ReplicaStaysOk(P: Params, p: Bytes, r: Replica, log: seq<Vote>, v: Vote)
    requires Count(P) >= 1 && ReplicaOk(P, p, r, log) && v.validatorPubkey != p
    ensures ReplicaOk(P, p, r, log + [v])
  {
    hide Keyed, LogQuorum, LedgerIsChain, FinalizedHeight;
    QuorumsStay(P, r.node, r.ledger, log, v);
  }

  lemma QuorumsStay(P: Params, node: Node, L: LedgerState, log: seq<Vote>, v: Vote)
    requires Count(P) >= 1
    ensures LockOk(P, node, log) ==> LockOk(P, node, log + [v])
    ensures LedgerDecided(P, L, log) ==> LedgerDecided(P, L, log + [v])
  {
    hide LogQuorum;
    if LockOk(P, node, log) && node.lockedHash.Some? {
      LogQuorumGrows(P.committee, log, [v], node.height, node.lockedRound.value, PREVOTE, node.lockedHash.value);
    }
    if LedgerDecided(P, L, log) {
      forall h | h in L.entries ensures Decided(P, log + [v], h, L.entries[h].blockHash) {
        var round :| LogQuorum(P.committee, log, h, round, PRECOMMIT, L.entries[h].blockHash);
        LogQuorumGrows(P.committee, log, [v], h, round, PRECOMMIT, L.entries[h].blockHash);
      }
    }
  }

  // ---------- receiving ----------

  lemma ReceiveKeepsOk(P: Params, p: Bytes, r: Replica, log: seq<Vote>, a: Action)
    requires Count(P) >= 1 && ReplicaOk(P, p, r, log)
    requires a.GetPrevote? || a.GetPrecommit? || a.GetHeader? || a.GetBody?
    requires Act(P, p, r, log, a).Some?
    ensures ReplicaOk(P, p, Act(P, p, r, log, a).value.0, log)
    ensures Act(P, p, r, log, a).value.1 == None
  {
    hide LogQuorum, LedgerIsChain, FinalizedHeight, BlockHash, LedgerDecided;
    assert log + [] == log;
    match a {
      case GetPrevote(v) => KeepOk(r.node.prevotes, log, [], v);
      case GetPrecommit(v) => KeepOk(r.node.precommits, log, [], v);
      case GetHeader(header) =>
      case GetBody(hash, txs) =>
    }
  }

  lemma NextRoundKeepsOk(P: Params, p: Bytes, r: Replica, log: seq<Vote>)
    requires Count(P) >= 1 && ReplicaOk(P, p, r, log)
    ensures ReplicaOk(P, p, r.(node := RoundChange(r.node)), log)
  {
    hide LogQuorum, LedgerIsChain, FinalizedHeight, Keyed, LedgerDecided;
  }

  // ---------- voting ----------

  /** A vote for a slot the tracker has not seen, at the current height and round, is new and in order. */
  lemma FreshVote(P: Params, p: Bytes, r: Replica, log: seq<Vote>, v: Vote)
    requires Count(P) >= 1 && OwnVotesOk(p, r, log)
    requires v.validatorPubkey == p && v.height == r.node.height && v.round == r.node.round && SlotOf(v) !in r.sent
    ensures forall w :: w in log && w.validatorPubkey == p ==> KeyOf(w) != KeyOf(v) && NotAfter(w, v.height, v.round)
  {
  }

  /** The own votes after casting v, when the lock still covers what was precommitted. */
  lemma OwnVotesAfter(p: Bytes, r: Replica, log: seq<Vote>, r': Replica, v: Vote)
    requires OwnVotesOk(p, r, log)
    requires v.validatorPubkey == p && v.height == r.node.height && v.round == r.node.round
    requires r'.node.height == r.node.height && r'.node.round == r.node.round && r'.sent == r.sent + {SlotOf(v)}
    requires forall w :: w in log && OwnPrecommit(p, r.node.height, w) ==> LockCovers(r'.node, w)
    requires v.phase == PRECOMMIT && v.block.Some? ==> LockCovers(r'.node, v)
    ensures OwnVotesOk(p, r', log + [v])
  {
    forall w | w in log + [v] && w.validatorPubkey == p ensures OwnVoteOk(r', w) {
      if w in log {
        assert OwnVoteOk(r, w);
      }
    }
  }

  /** F-35 keeps the promise of an earlier precommit. */
  lemma PrevoteIsReleased(P: Params, p: Bytes, r: Replica, log: seq<Vote>, proposed: Bytes, v: Vote, w: Vote)
    requires Count(P) >= 1 && ReplicaOk(P, p, r, log)
    requires PrevoteTarget(r.node, proposed, Count(P)) == Some(proposed)
    requires v.block == Some(proposed) && v.height == r.node.height && v.round == r.node.round && v.validatorPubkey == p
    requires w in log && EarlierPrecommit(w, v)
    ensures Released(P.committee, log, w, v)
  {
    hide LogQuorum, HasQuorum, LedgerIsChain, FinalizedHeight, Keyed, LedgerDecided;
    assert OwnVoteOk(r, w);
    var node := r.node;
    if node.lockedHash == Some(proposed) {
      if w.round < node.lockedRound.value {
        assert LogQuorum(P.committee, log, v.height, node.lockedRound.value, PREVOTE, proposed);
      }
    } else {
      var x :| node.lockedRound.value < x <= node.round
               && HasQuorum(node.prevotes, node.height, x, PREVOTE, Count(P), Some(proposed));
      SeenIsLogged(P, node.prevotes, log, node.height, x, PREVOTE, proposed);
    }
  }

  lemma PrevoteKeepsOk(P: Params, p: Bytes, r: Replica, log: seq<Vote>, proposed: Bytes)
    requires Count(P) >= 1 && ReplicaOk(P, p, r, log) && P.committee.Honest(p)
    requires Act(P, p, r, log, Prevote(proposed)).Some?
    ensures Act(P, p, r, log, Prevote(proposed)).value.1.Some?
    ensures var (r', v) := Act(P, p, r, log, Prevote(proposed)).value;
            v.value.validatorPubkey == p && Admissible(P.committee, log, v.value)
             && ReplicaOk(P, p, r', log + [v.value])
  {
    hide SignedVote, LogQuorum, HasQuorum, LedgerIsChain, FinalizedHeight, Keyed, LedgerDecided, Released;
    var (r', e) := Act(P, p, r, log, Prevote(proposed)).value;
    var v := e.value;
    SignedVoteFields(SignerOf(P, p), r.node.height, r.node.round, PREVOTE, PrevoteTarget(r.node, proposed, Count(P)));
    FreshVote(P, p, r, log, v);
    assert Admissible(P.committee, log, v) by {
      PhasesDiffer();
      if v.block.Some? {
        forall w | w in log && EarlierPrecommit(w, v) ensures Released(P.committee, log, w, v) {
          PrevoteIsReleased(P, p, r, log, proposed, v, w);
        }
      }
    }
    PhasesDiffer();
    QuorumsStay(P, r.node, r.ledger, log, v);
    KeepOk(r.node.prevotes, log, [v], v);
    OwnCovered(p, r, log);
    OwnVotesAfter(p, r, log, r', v);
  }

  lemma OwnCovered(p: Bytes, r: Replica, log: seq<Vote>)
    requires OwnVotesOk(p, r, log)
    ensures forall w :: w in log && OwnPrecommit(p, r.node.height, w) ==> LockCovers(r.node, w)
  {
    forall w | w in log && OwnPrecommit(p, r.node.height, w) ensures LockCovers(r.node, w) {
      assert OwnVoteOk(r, w);
    }
  }

  lemma PhasesDiffer()
    ensures PREVOTE != PRECOMMIT
  {
    assert |PREVOTE| != |PRECOMMIT|;
  }

  lemma TimeoutKeepsOk(P: Params, p: Bytes, r: Replica, log: seq<Vote>)
    requires Count(P) >= 1 && ReplicaOk(P, p, r, log) && P.committee.Honest(p)
    requires Act(P, p, r, log, TimeoutPrevote).Some?
    ensures Act(P, p, r, log, TimeoutPrevote).value.1.Some?
    ensures var (r', v) := Act(P, p, r, log, TimeoutPrevote).value;
            v.value.validatorPubkey == p && Admissible(P.committee, log, v.value)
             && ReplicaOk(P, p, r', log + [v.value])
  {
    hide SignedVote, LogQuorum, HasQuorum, LedgerIsChain, FinalizedHeight, Keyed, LedgerDecided, Released;
    var (r', e) := Act(P, p, r, log, TimeoutPrevote).value;
    var v := e.value;
    SignedVoteFields(SignerOf(P, p), r.node.height, r.node.round, PREVOTE, None);
    FreshVote(P, p, r, log, v);
    PhasesDiffer();
    QuorumsStay(P, r.node, r.ledger, log, v);
    OwnCovered(p, r, log);
    OwnVotesAfter(p, r, log, r', v);
  }

  // ---------- locking ----------

  /** Locking at the current round gives a lock backed by the log, which still covers every own precommit. */
  lemma LockStaysOk(P: Params, p: Bytes, r: Replica, log: seq<Vote>)
    requires P.committee.Valid() && ReplicaOk(P, p, r, log) && LogOk(P.committee, log)
    ensures var node' := ApplyLock(r.node, r.node.round, Count(P)).0;
            LockOk(P, node', log)
            && forall w :: w in log && OwnPrecommit(p, r.node.height, w) ==> LockCovers(node', w)
  {
    hide LogQuorum, HasQuorum, QuorumBlocks, LedgerIsChain, FinalizedHeight, Keyed, LedgerDecided, LogOk;
    OwnCovered(p, r, log);
    var node := r.node;
    var found := FirstOf(Lockable(node, node.round, Count(P)));
    if found.Some? {
      var b := found.value;
      QuorumBlocksMeans(node.prevotes, node.height, node.round, PREVOTE, Count(P), b);
      SeenIsLogged(P, node.prevotes, log, node.height, node.round, PREVOTE, b);
      if node.lockedHash.Some? && node.lockedRound.value == node.round {
        SlotQuorumIsUnique(P.committee, log, node.height, node.round, PREVOTE, b, node.lockedHash.value);
      }
    }
  }

  lemma LockOnlyKeepsOk(P: Params, p: Bytes, r: Replica, log: seq<Vote>)
    requires P.committee.Valid() && ReplicaOk(P, p, r, log) && LogOk(P.committee, log)
    ensures ReplicaOk(P, p, r.(node := ApplyLock(r.node, r.node.round, Count(P)).0), log)
  {
    hide LogQuorum, LedgerIsChain, FinalizedHeight, Keyed, LedgerDecided, LogOk, QuorumBlocks;
    LockStaysOk(P, p, r, log);
    var r' := r.(node := ApplyLock(r.node, r.node.round, Count(P)).0);
    forall w | w in log && w.validatorPubkey == p ensures OwnVoteOk(r', w) {
      assert OwnVoteOk(r, w);
    }
  }

  /** When every block with prevotes is known, locking and then precommitting precommits the block just locked,
      or NIL when no block has a quorum. */
  lemma PrecommitsTheLock(node: Node, n: int)
    requires n >= 1 && PrevotesKnown(node)
    ensures var node' := ApplyLock(node, node.round, n).0;
            match PrecommitTarget(node', n)
            case Some(b) => node'.lockedHash == Some(b) && node'.lockedRound == Some(node.round)
                            && HasQuorum(node.prevotes, node.height, node.round, PREVOTE, n, Some(b))
            case None => QuorumBlocks(node.prevotes, node.height, node.round, PREVOTE, n) == {}
  {
    hide HasQuorum;
    var all := QuorumBlocks(node.prevotes, node.height, node.round, PREVOTE, n);
    assert Lockable(node, node.round, n) == all;
    if all == {} {
      if node.lockedHash.Some? {
        QuorumBlocksMeans(node.prevotes, node.height, node.round, PREVOTE, n, node.lockedHash.value);
      }
    } else {
      QuorumBlocksMeans(node.prevotes, node.height, node.round, PREVOTE, n, FirstOf(all).value);
    }
  }

  lemma PrecommitKeepsOk(P: Params, p: Bytes, r: Replica, log: seq<Vote>)
    requires P.committee.Valid() && ReplicaOk(P, p, r, log) && LogOk(P.committee, log) && P.committee.Honest(p)
    requires Act(P, p, r, log, LockAndPrecommit).Some?
    ensures Act(P, p, r, log, LockAndPrecommit).value.1.Some?
    ensures var (r', v) := Act(P, p, r, log, LockAndPrecommit).value;
            v.value.validatorPubkey == p && Admissible(P.committee, log, v.value)
             && ReplicaOk(P, p, r', log + [v.value])
  {
    hide SignedVote, LogQuorum, HasQuorum, LedgerIsChain, FinalizedHeight, Keyed, LedgerDecided, LogOk;
    hide PrecommitTarget, QuorumBlocks;
    var n := Count(P);
    var locked := ApplyLock(r.node, r.node.round, n).0;
    var target := PrecommitTarget(locked, n);
    var (r', e) := Act(P, p, r, log, LockAndPrecommit).value;
    var v := e.value;
    SignedVoteFields(SignerOf(P, p), r.node.height, r.node.round, PRECOMMIT, target);
    PrecommitsTheLock(r.node, n);
    LockStaysOk(P, p, r, log);
    FreshVote(P, p, r, log, v);
    PhasesDiffer();
    if target.Some? {
      SeenIsLogged(P, r.node.prevotes, log, r.node.height, r.node.round, PREVOTE, target.value);
    }
    assert Admissible(P.committee, log, v);
    QuorumsStay(P, locked, r.ledger, log, v);
    KeepOk(r.node.precommits, log, [v], v);
    KeepMore(r.node.prevotes, log, v);
    OwnVotesAfter(p, r, log, r', v);
  }

  lemma KeepMore(votes: Stored, log: seq<Vote>, v: Vote)
    requires VotesOk(votes, log)
    ensures VotesOk(votes, log + [v])
  {
  }

  // ---------- finalizing ----------

  /** A finalized block was decided by precommits in the log, and extends this validator's chain. */
  lemma FinalizeKeepsOk(P: Params, p: Bytes, r: Replica, log: seq<Vote>, writeFails: bool)
    requires Count(P) >= 1 && ReplicaOk(P, p, r, log)
    ensures ReplicaOk(P, p, AfterFinalize(P, r, writeFails), log)
  {
    hide LogQuorum, HasQuorum, QuorumBlocks, Commit, Healthy, FinalizedHeight, BlockHash, Prune;
    var node, n, fault := r.node, Count(P), if writeFails then WriteFails else NoFault;
    var found := FirstOf(QuorumBlocks(node.precommits, node.height, node.round, PRECOMMIT, n));
    if found.Some? && found.value in node.store.headers && found.value in node.store.bodies {
      var b := found.value;
      QuorumBlocksMeans(node.precommits, node.height, node.round, PRECOMMIT, n, b);
      SeenIsLogged(P, node.precommits, log, node.height, node.round, PRECOMMIT, b);
      var block := Block(node.store.headers[b], node.store.bodies[b]);
      CommitKeepsLedger(P, r.ledger, block, fault);
      var (L', out) := Commit(P.c, P.cfg, r.ledger, block, fault);
      if out.Committed? {
        assert out.entry.blockHash == b;
        assert Decided(P, log, node.height, b);
        forall h | h in L'.entries ensures Decided(P, log, h, L'.entries[h].blockHash) {
          if h != node.height {
            assert h in r.ledger.entries;
          }
        }
        var r' := AfterFinalize(P, r, writeFails);
        assert r'.node == NewHeight(node, node.height + 1);
        forall w | w in log && w.validatorPubkey == p ensures OwnVoteOk(r', w) {
          assert OwnVoteOk(r, w);
        }
      }
    }
  }

  lemma CommitKeepsLedger(P: Params, L: LedgerState, block: Block, fault: Fault)
    requires LedgerIsChain(P, L) && (fault == NoFault || fault == WriteFails)
    ensures var (L', out) := Commit(P.c, P.cfg, L, block, fault);
            LedgerIsChain(P, L')
            && (if out.Committed? then
                  block.header.height == FinalizedHeight(L.entries) + 1 == FinalizedHeight(L'.entries)
                  && L'.entries == L.entries[block.header.height := out.entry]
                  && BlockHash(P.c, block.header) == Some(out.entry.blockHash)
                else L'.entries == L.entries)
  {
    hide BlockHash, ValidateBody, History, FinalizedHeight, Synced, Finalize;
    var H, blocks :| Healthy(P.c, P.cfg, L, H, blocks, 1);
    var (L', out) := Commit(P.c, P.cfg, L, block, fault);
    NotCrashed(P.c, P.cfg, L, block, fault);
    var H', blocks', lo := TryStaysHealthy(P.c, P.cfg, L, Attempt(block, fault), H, blocks, 1);
    CommitLinks(P.c, P.cfg, L, block, fault, H, 1);
    WindowHead(L.entries, H, 1);
    WindowHead(L'.entries, H', 1);
    if out.Committed? {
      WindowExtends(L.entries, H, 1, out.entry);
      WindowHead(L'.entries, H + [out.entry], 1);
    }
  }

  lemma NotCrashed(c: Primitives, cfg: ExecutionConfig, L: LedgerState, block: Block, fault: Fault)
    requires fault == NoFault || fault == WriteFails
    ensures Commit(c, cfg, L, block, fault).1 != LedgerRaises(Crashed)
  {
    hide BlockHash, ValidateBody;
  }

  // ---------- every run ----------

  lemma ActKeepsOk(P: Params, p: Bytes, r: Replica, log: seq<Vote>, a: Action)
    requires P.committee.Valid() && ReplicaOk(P, p, r, log) && LogOk(P.committee, log) && P.committee.Honest(p)
    requires Act(P, p, r, log, a).Some?
    ensures match Act(P, p, r, log, a).value
            case (r', None) => ReplicaOk(P, p, r', log)
            case (r', Some(v)) => v.validatorPubkey == p && Admissible(P.committee, log, v)
                                   && ReplicaOk(P, p, r', log + [v])
  {
    hide ReplicaOk, LogOk, Admissible;
    match a {
      case GetPrevote(_) => ReceiveKeepsOk(P, p, r, log, a);
      case GetPrecommit(_) => ReceiveKeepsOk(P, p, r, log, a);
      case GetHeader(_) => ReceiveKeepsOk(P, p, r, log, a);
      case GetBody(_, _) => ReceiveKeepsOk(P, p, r, log, a);
      case Prevote(proposed) => PrevoteKeepsOk(P, p, r, log, proposed);
      case TimeoutPrevote => TimeoutKeepsOk(P, p, r, log);
      case LockOnly => LockOnlyKeepsOk(P, p, r, log);
      case LockAndPrecommit => PrecommitKeepsOk(P, p, r, log);
      case FinalizeStep(writeFails) => FinalizeKeepsOk(P, p, r, log, writeFails);
      case NextRound => NextRoundKeepsOk(P, p, r, log);
    }
  }

  lemma NextKeepsOk(P: Params, s: System, step: Step)
    requires P.committee.Valid() && SystemOk(P, s) && Next(P, s, step).Some?
    ensures SystemOk(P, Next(P, s, step).value)
    ensures s.log <= Next(P, s, step).value.log
  {
    hide ReplicaOk, LogOk, Admissible, Act;
    var t := Next(P, s, step).value;
    match step {
      case Adversary(v) =>
        ByzantineIsAdmissible(P, s.log, v);
        LogGrows(P.committee, s.log, v);
        forall q | q in t.replicas ensures ReplicaOk(P, q, t.replicas[q], t.log) {
          ReplicaStaysOk(P, q, s.replicas[q], s.log, v);
        }
      case Correct(p, a) =>
        ActKeepsOk(P, p, s.replicas[p], s.log, a);
        match Act(P, p, s.replicas[p], s.log, a).value {
          case (r, None) =>
          case (r, Some(v)) =>
            LogGrows(P.committee, s.log, v);
            forall q | q in t.replicas ensures ReplicaOk(P, q, t.replicas[q], t.log) {
              if q != p {
                ReplicaStaysOk(P, q, s.replicas[q], s.log, v);
              }
            }
        }
    }
  }

  lemma ByzantineIsAdmissible(P: Params, log: seq<Vote>, v: Vote)
    requires P.committee.Valid() && v.validatorPubkey in P.committee.byzantine
    ensures Admissible(P.committee, log, v)
  {
    hide LogQuorum, Released;
  }

  lemma InitIsOk(P: Params, s: System)
    requires P.committee.Valid() && Init(P, s)
    ensures SystemOk(P, s)
  {
    hide BlockHash, LogQuorum;
    forall p | p in s.replicas ensures ReplicaOk(P, p, s.replicas[p], s.log) {
      var L := s.replicas[p].ledger;
      EmptyHistory(P.c, P.cfg, P.chainId);
      assert Healthy(P.c, P.cfg, L, [], [], 1);
    }
  }

  /** Every reachable system is fine, and its log extends that of every earlier point of the run. */
  lemma {:induction false} RunIsOk(P: Params, s: System, steps: seq<Step>)
    requires P.committee.Valid() && Init(P, s) && Reach(P, s, steps).Some?
    ensures SystemOk(P, Reach(P, s, steps).value)
  {
    hide SystemOk, Next;
    if steps == [] {
      InitIsOk(P, s);
    } else {
      var n := |steps| - 1;
      RunIsOk(P, s, steps[..n]);
      NextKeepsOk(P, Reach(P, s, steps[..n]).value, steps[n]);
    }
  }

  lemma {:induction false} LogOnlyGrows(P: Params, s: System, steps: seq<Step>, i: nat)
    requires P.committee.Valid() && Init(P, s) && Reach(P, s, steps).Some? && i <= |steps|
    ensures Reach(P, s, steps[..i]).Some?
    ensures Reach(P, s, steps[..i]).value.log <= Reach(P, s, steps).value.log
    decreases |steps|
  {
    hide SystemOk, Next;
    if i < |steps| {
      var n := |steps| - 1;
      LogOnlyGrows(P, s, steps[..n], i);
      assert steps[..n][..i] == steps[..i];
      RunIsOk(P, s, steps[..n]);
      NextKeepsOk(P, Reach(P, s, steps[..n]).value, steps[n]);
    } else {
      assert steps[..i] == steps;
    }
  }

  lemma DecidedAgree(P: Params, log: seq<Vote>, h: int, b: Bytes, b': Bytes)
    requires P.committee.Valid() && LogOk(P.committee, log) && Decided(P, log, h, b) && Decided(P, log, h, b')
    ensures b == b'
  {
    hide LogOk, LogQuorum;
    var r :| LogQuorum(P.committee, log, h, r, PRECOMMIT, b);
    var r' :| LogQuorum(P.committee, log, h, r', PRECOMMIT, b');
    if r <= r' {
      PrecommitQuorumsAgree(P.committee, log, h, r, b, r', b');
    } else {
      PrecommitQuorumsAgree(P.committee, log, h, r', b', r, b);
    }
  }

  lemma DecidedStays(P: Params, log: seq<Vote>, longer: seq<Vote>, h: int, b: Bytes)
    requires Count(P) >= 1 && log <= longer && Decided(P, log, h, b)
    ensures Decided(P, longer, h, b)
  {
    hide LogQuorum;
    var r :| LogQuorum(P.committee, log, h, r, PRECOMMIT, b);
    assert longer == log + longer[|log|..];
    LogQuorumGrows(P.committee, log, longer[|log|..], h, r, PRECOMMIT, b);
  }

  lemma EntryIsDecided(P: Params, s: System, p: Bytes, h: int)
    requires Count(P) >= 1 && SystemOk(P, s) && p in s.replicas && h in s.replicas[p].ledger.entries
    ensures Decided(P, s.log, h, s.replicas[p].ledger.entries[h].blockHash)
  {
    hide LogOk, Keyed, LedgerIsChain, Decided;
    assert ReplicaOk(P, p, s.replicas[p], s.log);
  }

  /** Agreement. In every run with fewer byzantine validators than two quorums share, no two correct validators ever
      hold different blocks at one height, at whatever points of the run and in whatever rounds they finalized. */
  lemma AgreementHolds(P: Params, s: System, steps: seq<Step>, i: nat, j: nat, p: Bytes, q: Bytes, h: int)
    requires P.committee.Valid() && Init(P, s) && Reach(P, s, steps).Some? && i <= |steps| && j <= |steps|
    requires Reach(P, s, steps[..i]).Some? && Reach(P, s, steps[..j]).Some?
    requires var a, b := Reach(P, s, steps[..i]).value, Reach(P, s, steps[..j]).value;
             p in a.replicas && q in b.replicas
             && h in a.replicas[p].ledger.entries && h in b.replicas[q].ledger.entries
    ensures var a, b := Reach(P, s, steps[..i]).value, Reach(P, s, steps[..j]).value;
            a.replicas[p].ledger.entries[h].blockHash == b.replicas[q].ledger.entries[h].blockHash
  {
    hide SystemOk, Reach, LogOk, Decided;
    var a, b := Reach(P, s, steps[..i]).value, Reach(P, s, steps[..j]).value;
    var end := Reach(P, s, steps).value;
    RunIsOk(P, s, steps[..i]);
    RunIsOk(P, s, steps[..j]);
    RunIsOk(P, s, steps);
    LogOnlyGrows(P, s, steps, i);
    LogOnlyGrows(P, s, steps, j);
    EntryIsDecided(P, a, p, h);
    EntryIsDecided(P, b, q, h);
    var x, y := a.replicas[p].ledger.entries[h].blockHash, b.replicas[q].ledger.entries[h].blockHash;
    DecidedStays(P, a.log, end.log, h, x);
    DecidedStays(P, b.log, end.log, h, y);
    LogOfOk(P, end);
    DecidedAgree(P, end.log, h, x, y);
  }

  lemma LogOfOk(P: Params, s: System)
    requires Count(P) >= 1 && SystemOk(P, s)
    ensures LogOk(P.committee, s.log)
  {
    hide ReplicaOk, LogOk;
  }
}
