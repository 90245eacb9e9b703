/** One validator's consensus state for a height, and the decisions it takes (src/consensus.py).
    A Node is the value of a ConsensusState object; every method is proved to move its object as the function
    of the same name moves the value. Votes returned by a method are what the source broadcasts. */
module Consensus {
  import opened Wrappers
  import opened Ordering
  import opened Crypto
  import opened Transactions
  import opened Blocks
  import opened States
  import opened Bodies
  import opened Ledgers
  import opened Chain
  import opened Votes
  import opened VoteSets
  import opened BlockStores

  datatype Node = Node(
    height: int, round: int, lockedHash: Option<Bytes>, lockedRound: Option<int>, validHash: Option<Bytes>,
    store: Store, prevotes: Stored, precommits: Stored)

  /** A validator's own key, and the chain it votes on. `sign` is the signing oracle. */
  datatype Signer = Signer(chainId: Bytes, pubkey: Bytes, sign: Bytes -> Bytes)

  const HASH_SIZE := 32

  /** A vote of this validator; the oracle signs its unsigned bytes. */
  function SignedVote(s: Signer, height: int, round: int, phase: Bytes, block: Option<Bytes>): Vote {
    var unsigned := Vote(s.chainId, height, round, phase, block, s.pubkey, []);
    match Votes.UnsignedBytes(unsigned)
    case None => unsigned
    case Some(bytes) => unsigned.(signature := s.sign(bytes))
  }

  lemma SignedVoteFields(s: Signer, height: int, round: int, phase: Bytes, block: Option<Bytes>)
    ensures var v := SignedVote(s, height, round, phase, block);
            v.height == height && v.round == round && v.phase == phase && v.block == block
            && v.validatorPubkey == s.pubkey
            && KeyOf(v) == VoteKey(height, round, phase, s.pubkey)
  {
    hide Votes.UnsignedBytes;
  }

  /** The vote is of this signer, on its chain, and carries the oracle's signature of its own unsigned bytes. */
  ghost predicate ProperlySigned(s: Signer, v: Vote) {
    v.chainId == s.chainId && v.validatorPubkey == s.pubkey
    && (Votes.UnsignedBytes(v).Some? ==> v.signature == s.sign(Votes.UnsignedBytes(v).value))
  }

  lemma SignedVoteIsProper(s: Signer, height: int, round: int, phase: Bytes, block: Option<Bytes>)
    ensures ProperlySigned(s, SignedVote(s, height, round, phase, block))
  {
    var unsigned := Vote(s.chainId, height, round, phase, block, s.pubkey, []);
    if Votes.UnsignedBytes(unsigned).Some? {
      Votes.UnsignedOmitsSignature(unsigned, s.sign(Votes.UnsignedBytes(unsigned).value));
    }
    hide Votes.UnsignedBytes;
  }

  // ---------- quorums, counted out ----------

  /** At least 2f + 1 distinct validators, with f = (n - 1) / 3, have a stored vote for the block in the slot. */
  ghost predicate Quorate(votes: Stored, height: int, round: int, phase: Bytes, n: int, b: Bytes) {
    var voters := set k | k in votes && votes[k].height == height && votes[k].round == round
                          && votes[k].phase == phase && votes[k].block == Some(b) :: votes[k].validatorPubkey;
    |voters| >= 2 * ((n - 1) / 3) + 1
  }

  lemma QuorateIsQuorum(votes: Stored, height: int, round: int, phase: Bytes, n: int, b: Bytes)
    requires n >= 1
    ensures Quorate(votes, height, round, phase, n, b) <==> HasQuorum(votes, height, round, phase, n, Some(b))
    ensures Quorate(votes, height, round, phase, n, b) <==> b in QuorumBlocks(votes, height, round, phase, n)
  {
    QuorumBlocksMeans(votes, height, round, phase, n, b);
    assert Voters(votes, height, round, phase, Some(b))
           == set k | k in votes && votes[k].height == height && votes[k].round == round
                      && votes[k].phase == phase && votes[k].block == Some(b) :: votes[k].validatorPubkey;
  }

  /** The first quorate block in sorted order, among the known ones if a restriction is given. */
  ghost predicate FirstQuorate(votes: Stored, height: int, round: int, phase: Bytes, n: int,
                               known: Option<set<Bytes>>, b: Bytes) {
    Quorate(votes, height, round, phase, n, b) && (known.Some? ==> b in known.value)
    && forall x :: Quorate(votes, height, round, phase, n, x) && (known.Some? ==> x in known.value) && x != b ==>
         Less(b, x)
  }

  lemma FirstOfQuorate(votes: Stored, height: int, round: int, phase: Bytes, n: int, known: Option<set<Bytes>>,
                       candidates: set<Bytes>)
    requires n >= 1
    requires forall b :: b in candidates <==>
               b in QuorumBlocks(votes, height, round, phase, n) && (known.Some? ==> b in known.value)
    ensures match FirstOf(candidates)
            case Some(b) => FirstQuorate(votes, height, round, phase, n, known, b)
            case None => forall b :: Quorate(votes, height, round, phase, n, b) ==> known.Some? && b !in known.value
  {
    forall b ensures Quorate(votes, height, round, phase, n, b) <==> b in QuorumBlocks(votes, height, round, phase, n) {
      QuorateIsQuorum(votes, height, round, phase, n, b);
    }
    hide Quorate, QuorumBlocks, Less;
  }

  // ---------- prevote (F-35) ----------

  /** The node is unlocked, locked on the proposal, or released by a quorum for it in a round after the lock. */
  ghost predicate FreeToPrevote(node: Node, proposed: Bytes, n: int) {
    node.lockedHash == None || node.lockedHash == Some(proposed)
    || (node.lockedRound.Some?
        && exists r :: node.lockedRound.value < r <= node.round
                       && Quorate(node.prevotes, node.height, r, PREVOTE, n, proposed))
  }

  /** A quorum of prevotes for the block in a round after the lock. */
  ghost predicate LaterQuorum(node: Node, block: Bytes, n: int)
    requires n >= 1
  {
    node.lockedRound.Some?
    && exists r :: node.lockedRound.value < r <= node.round &&
                    HasQuorum(node.prevotes, node.height, r, PREVOTE, n, Some(block))
  }

  /** What to prevote for a proposed block: the block, or NIL. */
  ghost function PrevoteTarget(node: Node, proposed: Bytes, n: int): Option<Bytes>
    requires n >= 1
  {
    if node.lockedHash == None || node.lockedHash == Some(proposed) || LaterQuorum(node, proposed, n)
    then Some(proposed) else None
  }

  /** The ValueError of `_check_hash` is None. */
  ghost function MakePrevote(node: Node, s: Signer, proposed: Bytes, n: int): Option<(Node, Vote)>
    requires n >= 1
  {
    if |proposed| != HASH_SIZE then None
    else
      var v := SignedVote(s, node.height, node.round, PREVOTE, PrevoteTarget(node, proposed, n));
      Some((node.(prevotes := Keep(node.prevotes, v)), v))
  }

  lemma TargetIsFree(node: Node, proposed: Bytes, n: int)
    requires n >= 1
    ensures PrevoteTarget(node, proposed, n) == if FreeToPrevote(node, proposed, n) then Some(proposed) else None
  {
    forall r ensures Quorate(node.prevotes, node.height, r, PREVOTE, n, proposed)
                     <==> HasQuorum(node.prevotes, node.height, r, PREVOTE, n, Some(proposed)) {
      QuorateIsQuorum(node.prevotes, node.height, r, PREVOTE, n, proposed);
    }
    hide Quorate, HasQuorum;
  }

  /** A prevote is cast exactly for a 32-byte proposal; it is for the proposal exactly when the node is free to, and for
      NIL otherwise. It is stored unless its slot is taken, and nothing else changes. */
  lemma PrevotesExactlyWhen(node: Node, s: Signer, proposed: Bytes, n: int)
    requires n >= 1
    ensures MakePrevote(node, s, proposed, n).Some? <==> |proposed| == 32
    ensures |proposed| == 32 ==>
              var (after, v) := MakePrevote(node, s, proposed, n).value;
              v.block == (if FreeToPrevote(node, proposed, n) then Some(proposed) else None)
              && v.height == node.height && v.round == node.round && v.phase == PREVOTE && ProperlySigned(s, v)
              && after == node.(prevotes := Keep(node.prevotes, v))
  {
    TargetIsFree(node, proposed, n);
    SignedVoteFields(s, node.height, node.round, PREVOTE, PrevoteTarget(node, proposed, n));
    SignedVoteIsProper(s, node.height, node.round, PREVOTE, PrevoteTarget(node, proposed, n));
    hide SignedVote, PrevoteTarget, FreeToPrevote, ProperlySigned, Keep;
  }

  // ---------- lock (F-36) ----------

  /** The known blocks with a prevote quorum in the round. */
  ghost function Lockable(node: Node, round: int, n: int): set<Bytes>
    requires n >= 1
  {
    set b | b in QuorumBlocks(node.prevotes, node.height, round, PREVOTE, n) && b in node.store.headers
  }

  ghost function ApplyLock(node: Node, round: int, n: int): (Node, Option<Bytes>)
    requires n >= 1
  {
    match FirstOf(Lockable(node, round, n))
    case None => (node, None)
    case Some(b) => (node.(lockedHash := Some(b), lockedRound := Some(round), validHash := Some(b)), Some(b))
  }

  /** The node locks the first known block with a prevote quorum in the round asked for, and remembers it as valid;
      it locks nothing exactly when no known block has one. */
  lemma LocksExactlyWhen(node: Node, round: int, n: int)
    requires n >= 1
    ensures match ApplyLock(node, round, n)
            case (after, Some(b)) =>
              FirstQuorate(node.prevotes, node.height, round, PREVOTE, n, Some(node.store.headers.Keys), b)
              && after == node.(lockedHash := Some(b), lockedRound := Some(round), validHash := Some(b))
            case (after, None) =>
              after == node
              && forall b :: Quorate(node.prevotes, node.height, round, PREVOTE, n, b) ==> b !in node.store.headers
  {
    FirstOfQuorate(node.prevotes, node.height, round, PREVOTE, n, Some(node.store.headers.Keys),
                   Lockable(node, round, n));
    hide FirstQuorate, Quorate, QuorumBlocks;
  }

  // ---------- precommit (F-37) ----------

  ghost function PrecommitTarget(node: Node, n: int): Option<Bytes>
    requires n >= 1
  {
    if node.lockedHash.Some? && HasQuorum(node.prevotes, node.height, node.round, PREVOTE, n, node.lockedHash)
    then node.lockedHash
    else FirstOf(QuorumBlocks(node.prevotes, node.height, node.round, PREVOTE, n))
  }

  ghost function MakePrecommit(node: Node, s: Signer, n: int): (Node, Vote)
    requires n >= 1
  {
    var v := SignedVote(s, node.height, node.round, PRECOMMIT, PrecommitTarget(node, n));
    (node.(precommits := Keep(node.precommits, v)), v)
  }

  /** A precommit names the locked block if it has a prevote quorum in the current round, else the first block that
      has one, else NIL. It is stored unless its slot is taken, and nothing else changes. */
  lemma PrecommitsExactlyWhen(node: Node, s: Signer, n: int)
    requires n >= 1
    ensures var (after, v) := MakePrecommit(node, s, n);
            var quorate := b => Quorate(node.prevotes, node.height, node.round, PREVOTE, n, b);
            v.height == node.height && v.round == node.round && v.phase == PRECOMMIT && ProperlySigned(s, v)
            && after == node.(precommits := Keep(node.precommits, v))
            && (node.lockedHash.Some? && quorate(node.lockedHash.value) ==> v.block == node.lockedHash)
            && (!(node.lockedHash.Some? && quorate(node.lockedHash.value)) ==>
                  match v.block
                  case Some(b) => FirstQuorate(node.prevotes, node.height, node.round, PREVOTE, n, None, b)
                  case None => forall b :: !Quorate(node.prevotes, node.height, node.round, PREVOTE, n, b))
  {
    if node.lockedHash.Some? {
      QuorateIsQuorum(node.prevotes, node.height, node.round, PREVOTE, n, node.lockedHash.value);
    }
    FirstOfQuorate(node.prevotes, node.height, node.round, PREVOTE, n, None,
                   QuorumBlocks(node.prevotes, node.height, node.round, PREVOTE, n));
    SignedVoteFields(s, node.height, node.round, PRECOMMIT, PrecommitTarget(node, n));
    SignedVoteIsProper(s, node.height, node.round, PRECOMMIT, PrecommitTarget(node, n));
    hide SignedVote, FirstQuorate, Quorate, QuorumBlocks, HasQuorum, ProperlySigned, Keep;
  }

  /** A precommit for a block names the node's lock exactly when no block has a quorum or the locked one has. */
  lemma PrecommitsOnlyTheLock(node: Node, n: int)
    requires n >= 1
    ensures (PrecommitTarget(node, n) == None || PrecommitTarget(node, n) == node.lockedHash) <==>
            var quorum := QuorumBlocks(node.prevotes, node.height, node.round, PREVOTE, n);
            quorum == {} || (node.lockedHash.Some? && node.lockedHash.value in quorum)
  {
    var quorum := QuorumBlocks(node.prevotes, node.height, node.round, PREVOTE, n);
    if node.lockedHash.Some? {
      QuorumBlocksMeans(node.prevotes, node.height, node.round, PREVOTE, n, node.lockedHash.value);
    }
    hide QuorumBlocks, HasQuorum;
  }

  // ---------- finalize (F-38), round change (F-39) ----------

  datatype FinalizeOutcome =
    | Finalized(entry: LedgerEntry) | NoPrecommitQuorum | NoHeader | NoBody | NotCommitted(why: CommitOutcome)

  function NewHeight(node: Node, height: int): Node {
    Node(height, 0, None, None, None, Store(map[], map[]), map[], map[])
  }

  ghost function TryFinalize(c: Primitives, cfg: ExecutionConfig, node: Node, L: LedgerState, n: int, fault: Fault)
    : (Node, LedgerState, FinalizeOutcome)
    requires n >= 1
  {
    match FirstOf(QuorumBlocks(node.precommits, node.height, node.round, PRECOMMIT, n))
    case None => (node, L, NoPrecommitQuorum)
    case Some(b) =>
      if b !in node.store.headers then (node, L, NoHeader)
      else if b !in node.store.bodies then (node, L, NoBody)
      else
        var (L', out) := Commit(c, cfg, L, Block(node.store.headers[b], node.store.bodies[b]), fault);
        match out
        case Committed(entry) => (NewHeight(node, node.store.headers[b].height + 1), L', Finalized(entry))
        case _ => (node, L', NotCommitted(out))
  }

  /** The next round: votes are forgotten, the lock is kept. */
  function RoundChange(node: Node): Node {
    node.(round := node.round + 1, prevotes := map[], precommits := map[])
  }

  ghost function RoundChanges(node: Node, k: nat): Node {
    if k == 0 then node else RoundChange(RoundChanges(node, k - 1))
  }

  /** k round changes lead k rounds on; the lock, the valid block and the store are kept, and no vote is. */
  lemma {:induction false} RoundsAdvance(node: Node, k: nat)
    ensures RoundChanges(node, k) ==
            Node(node.height, node.round + k, node.lockedHash, node.lockedRound, node.validHash, node.store,
                 if k == 0 then node.prevotes else map[], if k == 0 then node.precommits else map[])
  {
    if k > 0 {
      RoundsAdvance(node, k - 1);
    }
  }

  // ---------- the scan over sorted candidates ----------

  /** The blocks of the slot with a quorum, among the known ones if a restriction is given. */
  ghost function Wanted(votes: Stored, height: int, round: int, phase: Bytes, n: int,
                        known: Option<map<Bytes, BlockHeader>>): set<Bytes>
    requires n >= 1
  {
    set b | b in QuorumBlocks(votes, height, round, phase, n) && (known.Some? ==> b in known.value)
  }

  lemma WantedAll(votes: Stored, height: int, round: int, phase: Bytes, n: int)
    requires n >= 1
    ensures Wanted(votes, height, round, phase, n, None) == QuorumBlocks(votes, height, round, phase, n)
  {
    hide QuorumBlocks;
  }

  /** The non-NIL blocks named by the votes. */
  method CandidateHashes(list: seq<Vote>) returns (candidates: set<Bytes>)
    ensures candidates == set v | v in list && v.block.Some? :: v.block.value
  {
    candidates := {};
    for i := 0 to |list|
      invariant candidates == set v | v in list[..i] && v.block.Some? :: v.block.value
    {
      assert list[..i + 1] == list[..i] + [list[i]];
      if list[i].block.Some? {
        candidates := candidates + {list[i].block.value};
      }
    }
    assert list[..|list|] == list;
  }

  /** The candidates in the order in which they are tried; no block with a quorum is missing. */
  method SortedCandidates(votes: VoteSet, height: int, round: int, phase: Bytes, ghost n: int,
                          ghost known: Option<map<Bytes, BlockHeader>>) returns (order: seq<Bytes>)
    requires n >= 1 && WellKeyed(votes.votes)
    ensures StrictlySorted(order) && Wanted(votes.votes, height, round, phase, n, known) <= Elements(order)
  {
    hide Listing, QuorumBlocks, WellKeyed;
    var list := votes.VotesOf(height, round, phase);
    var candidates := CandidateHashes(list);
    forall b | b in Wanted(votes.votes, height, round, phase, n, known) ensures b in candidates {
      var v := QuorumIsVotedFor(votes.votes, list, height, round, phase, n, b);
    }
    order := SortSet(candidates);
  }

  /** The loop shared by `apply_lock`, `make_precommit` and `try_finalize`: the first block in sorted order that
      was voted for, has a quorum and, if asked, has a known header. */
  method FirstWithQuorum(votes: VoteSet, height: int, round: int, phase: Bytes, n: int,
                         known: Option<map<Bytes, BlockHeader>>) returns (r: Option<Bytes>)
    requires n >= 1 && WellKeyed(votes.votes)
    ensures r == FirstOf(Wanted(votes.votes, height, round, phase, n, known))
  {
    hide StrictlySorted, Elements, HasQuorum, QuorumBlocks, WellKeyed;
    ghost var wanted := Wanted(votes.votes, height, round, phase, n, known);
    var order := SortedCandidates(votes, height, round, phase, n, known);
    for i := 0 to |order|
      invariant forall j :: 0 <= j < i ==> order[j] !in wanted
    {
      var b := order[i];
      QuorumBlocksMeans(votes.votes, height, round, phase, n, b);
      var enough := votes.CountQuorum(height, round, phase, n, Some(b));
      if enough.value && (known.Some? ==> b in known.value) {
        FirstInOrder(order, i, wanted);
        FirstOfIs(wanted, b);
        return Some(b);
      }
    }
    NoneInOrder(order, wanted);
    return None;
  }

  lemma FirstInOrder(order: seq<Bytes>, i: nat, wanted: set<Bytes>)
    requires StrictlySorted(order) && wanted <= Elements(order)
    requires i < |order| && order[i] in wanted && forall j :: 0 <= j < i ==> order[j] !in wanted
    ensures IsLeast(order[i], wanted)
  {
    forall x | x in wanted && x != order[i] ensures Less(order[i], x) {
      assert x in Elements(order);
      var j :| 0 <= j < |order| && order[j] == x;
    }
  }

  lemma NoneInOrder(order: seq<Bytes>, wanted: set<Bytes>)
    requires wanted <= Elements(order) && forall j :: 0 <= j < |order| ==> order[j] !in wanted
    ensures FirstOf(wanted) == None
  {
    assert forall b :: b in wanted ==> b in Elements(order);
    assert wanted == {};
  }

  /** A block with a quorum is named by one of the listed votes. */
  lemma QuorumIsVotedFor(votes: Stored, list: seq<Vote>, height: int, round: int, phase: Bytes, n: int, b: Bytes)
    returns (v: Vote)
    requires n >= 1 && WellKeyed(votes) && Listing(list, votes, height, round, phase)
    requires b in QuorumBlocks(votes, height, round, phase, n)
    ensures v in list && v.block == Some(b)
  {
    hide Listing, QuorumBlocks;
    QuorumBlocksMeans(votes, height, round, phase, n, b);
    var voters := Voters(votes, height, round, phase, Some(b));
    assert voters != {};
    var p :| p in voters;
    var k :| k in votes && Supports(votes[k], height, round, phase, Some(b)) && votes[k].validatorPubkey == p;
    assert KeyOf(votes[k]) == k;
    ListingIsComplete(list, votes, height, round, phase, k);
    v := votes[k];
  }

  // ---------- the object ----------

  class ConsensusState {
    var height: int
    var round: int
    var lockedHash: Option<Bytes>
    var lockedRound: Option<int>
    var validHash: Option<Bytes>
    var blockStore: BlockStore
    var prevotes: VoteSet
    var precommits: VoteSet

    ghost function Repr(): set<object>
      reads this
    {
      {this, blockStore, prevotes, precommits}
    }

    /** The two vote sets are different objects, each keyed by its votes. */
    ghost predicate Valid()
      reads this, prevotes, precommits
    {
      height > 0 && round >= 0 && prevotes != precommits && WellKeyed(prevotes.votes) && WellKeyed(precommits.votes)
    }

    ghost function View(): Node
      reads this, blockStore, prevotes, precommits
    {
      Node(height, round, lockedHash, lockedRound, validHash, blockStore.View(), prevotes.votes, precommits.votes)
    }

    constructor (height: int)
      requires height > 0
      ensures Valid() && fresh(Repr() - {this})
      ensures View() == Node(height, 0, None, None, None, Store(map[], map[]), map[], map[])
    {
      this.height, round := height, 0;
      lockedHash, lockedRound, validHash := None, None, None;
      var store := new BlockStore();
      var pv := new VoteSet();
      var pc := new VoteSet();
      blockStore, prevotes, precommits := store, pv, pc;
    }

    method HasLaterRoundPrevoteQuorum(block: Bytes, n: int) returns (r: bool)
      requires n >= 1 && Valid()
      ensures r == LaterQuorum(View(), block, n)
    {
      if lockedRound == None {
        return false;
      }
      var q := lockedRound.value + 1;
      while q <= round
        invariant forall p :: lockedRound.value < p < q ==>
                    !HasQuorum(prevotes.votes, height, p, PREVOTE, n, Some(block))
        decreases round - q
      {
        var enough := prevotes.CountQuorum(height, q, PREVOTE, n, Some(block));
        if enough.value {
          return true;
        }
        q := q + 1;
      }
      return false;
    }

    method PrevoteBlockOrNil(proposed: Bytes, n: int) returns (r: Option<Option<Bytes>>)
      requires n >= 1 && Valid()
      ensures r == if |proposed| != HASH_SIZE then None else Some(PrevoteTarget(View(), proposed, n))
      ensures |proposed| == 32 ==> r == Some(if FreeToPrevote(View(), proposed, n) then Some(proposed) else None)
    {
      TargetIsFree(View(), proposed, n);
      hide FreeToPrevote;
      if |proposed| != HASH_SIZE {
        return None;
      }
      if lockedHash == None {
        return Some(Some(proposed));
      }
      if lockedHash == Some(proposed) {
        return Some(Some(proposed));
      }
      var later := HasLaterRoundPrevoteQuorum(proposed, n);
      if later {
        return Some(Some(proposed));
      }
      return Some(None);
    }

    method CastPrevote(s: Signer, proposed: Bytes, n: int) returns (v: Option<Vote>)
      requires n >= 1 && Valid()
      modifies prevotes
      ensures Valid()
      ensures match MakePrevote(old(View()), s, proposed, n)
              case None => v == None && View() == old(View())
              case Some((node, w)) => v == Some(w) && View() == node
      ensures v.Some? ==> ProperlySigned(s, v.value)
    {
      PrevotesExactlyWhen(View(), s, proposed, n);
      hide SignedVote, PrevoteTarget, QuorumBlocks, FreeToPrevote, ProperlySigned;
      var target := PrevoteBlockOrNil(proposed, n);
      if target == None {
        return None;
      }
      var w := SignedVote(s, height, round, PREVOTE, target.value);
      var added := prevotes.Add(w);
      return Some(w);
    }

    /** `handle_proposal_timeout`: a NIL prevote, unless a proposal arrived. It is sent, not stored. */
    method HandleProposalTimeout(s: Signer, hasValidProposal: bool) returns (v: Option<Vote>)
      ensures v == if hasValidProposal then None else Some(SignedVote(s, height, round, PREVOTE, None))
      ensures v.Some? ==> v.value.block == None && v.value.phase == PREVOTE && ProperlySigned(s, v.value)
      ensures v.Some? ==> v.value.height == height && v.value.round == round
    {
      SignedVoteFields(s, height, round, PREVOTE, None);
      SignedVoteIsProper(s, height, round, PREVOTE, None);
      hide SignedVote, ProperlySigned;
      if hasValidProposal {
        return None;
      }
      return Some(SignedVote(s, height, round, PREVOTE, None));
    }

    method Lock(lockRound: int, n: int) returns (r: Option<Bytes>)
      requires n >= 1 && Valid()
      modifies this`lockedHash, this`lockedRound, this`validHash
      ensures Valid() && (View(), r) == ApplyLock(old(View()), lockRound, n)
    {
      hide QuorumBlocks;
      r := FirstWithQuorum(prevotes, height, lockRound, PREVOTE, n, Some(blockStore.headers));
      assert Lockable(View(), lockRound, n)
             == Wanted(prevotes.votes, height, lockRound, PREVOTE, n, Some(blockStore.headers));
      if r.Some? {
        lockedHash, lockedRound, validHash := r, Some(lockRound), r;
      }
    }

    method CastPrecommit(s: Signer, n: int) returns (v: Vote)
      requires n >= 1 && Valid()
      modifies precommits
      ensures Valid() && (View(), v) == MakePrecommit(old(View()), s, n)
      ensures ProperlySigned(s, v)
    {
      SignedVoteIsProper(s, height, round, PRECOMMIT, PrecommitTarget(View(), n));
      hide SignedVote, QuorumBlocks, Wanted, ProperlySigned;
      var target: Option<Bytes> := None;
      var enough: Option<bool> := Some(false);
      if lockedHash.Some? {
        enough := prevotes.CountQuorum(height, round, PREVOTE, n, lockedHash);
      }
      if enough.value {
        target := lockedHash;
      } else {
        target := FirstWithQuorum(prevotes, height, round, PREVOTE, n, None);
        WantedAll(prevotes.votes, height, round, PREVOTE, n);
      }
      v := SignedVote(s, height, round, PRECOMMIT, target);
      var added := precommits.Add(v);
    }

    method DoRoundChange()
      requires Valid()
      modifies this`round, this`prevotes, this`precommits
      ensures Valid() && View() == RoundChange(old(View()))
      ensures round == old(round) + 1 && prevotes.votes == map[] && precommits.votes == map[]
      ensures fresh(prevotes) && fresh(precommits)
    {
      round := round + 1;
      prevotes := new VoteSet();
      precommits := new VoteSet();
    }

    /** A height that is not positive is a ValueError: false. */
    method ResetHeight(newHeight: int) returns (ok: bool)
      modifies this
      ensures ok <==> newHeight > 0
      ensures ok ==> Valid() && View() == NewHeight(old(View()), newHeight) && fresh(Repr() - {this})
      ensures ok ==> View() == Node(newHeight, 0, None, None, None, Store(map[], map[]), map[], map[])
      ensures !ok ==> unchanged(this)
    {
      ok := newHeight > 0;
      if !ok {
        return;
      }
      height, round := newHeight, 0;
      lockedHash, lockedRound, validHash := None, None, None;
      blockStore := new BlockStore();
      prevotes := new VoteSet();
      precommits := new VoteSet();
    }

    method Finalize(c: Primitives, cfg: ExecutionConfig, ledger: Ledger, n: int, fault: Fault)
      returns (r: FinalizeOutcome)
      requires n >= 1 && Valid()
      modifies this, ledger, ledger.disk
      ensures Valid() && (View(), ledger.View(), r) == TryFinalize(c, cfg, old(View()), old(ledger.View()), n, fault)
    {
      hide QuorumBlocks, Wanted, Commit;
      var hash := FirstWithQuorum(precommits, height, round, PRECOMMIT, n, None);
      WantedAll(precommits.votes, height, round, PRECOMMIT, n);
      if hash == None {
        return NoPrecommitQuorum;
      }
      var b := hash.value;
      if b !in blockStore.headers {
        return NoHeader;
      }
      if b !in blockStore.bodies {
        return NoBody;
      }
      var header, txs := blockStore.headers[b], blockStore.bodies[b];
      r := CommitBlock(c, cfg, ledger, header, txs, fault);
      if r.Finalized? {
        var ok := ResetHeight(header.height + 1);
      }
    }
  }

  /** A new state for a height; None stands for the ValueError on a height that is not positive. */
  method NewConsensusState(height: int) returns (r: Option<ConsensusState>)
    ensures r.Some? <==> height > 0
    ensures r.Some? ==> fresh(r.value) && fresh(r.value.Repr()) && r.value.Valid()
    ensures r.Some? ==> r.value.View() == Node(height, 0, None, None, None, Store(map[], map[]), map[], map[])
  {
    if height <= 0 {
      return None;
    }
    var state := new ConsensusState(height);
    r := Some(state);
  }

  lemma FinalizedIsNotNegative(c: Primitives, L: LedgerState, header: BlockHeader, ids: seq<Bytes>, state: Contents,
                               nonces: map<Bytes, int>, fault: Fault)
    requires Ledgers.Finalize(c, L, header, ids, state, nonces, fault).1.Ok?
    ensures header.height >= 0
  {
  }

  /** The second half of `try_finalize`. */
  method CommitBlock(c: Primitives, cfg: ExecutionConfig, ledger: Ledger, header: BlockHeader, txs: seq<Transaction>,
                     fault: Fault)
    returns (r: FinalizeOutcome)
    modifies ledger, ledger.disk
    ensures var (L', out) := Commit(c, cfg, old(ledger.View()), Block(header, txs), fault);
            ledger.View() == L'
            && r == (match out case Committed(entry) => Finalized(entry) case _ => NotCommitted(out))
    ensures r.Finalized? ==> header.height >= 0
  {
    hide ValidateBody, Ledgers.Finalize;
    var parentHeight := header.height - 1;
    var parent: State;
    var parentNonces: map<Bytes, int> := map[];
    if parentHeight == 0 {
      parent := new State();
    } else {
      if parentHeight !in ledger.entries {
        return NotCommitted(ParentNotFinalized);
      }
      var stored := ledger.GetState(parentHeight);
      parent := stored.value;
      parentNonces := ledger.entries[parentHeight].nonces;
    }
    var verdict, post := ValidateBlockBody(c, cfg, header, txs, parent, parentNonces);
    match verdict {
      case BodyRaised =>
        return NotCommitted(BodyRaises);
      case Valid(state, nonces, ids) =>
        ghost var L := ledger.View();
        var out := ledger.FinalizeBlock(c, header, ids, post, nonces, fault);
        match out {
          case Ok(entry) =>
            FinalizedIsNotNegative(c, L, header, ids, state, nonces, fault);
            return Finalized(entry);
          case Err(e) => return NotCommitted(LedgerRaises(e));
        }
      case _ =>
        return NotCommitted(BodyInvalid(verdict));
    }
  }

  // ---------- one vote per slot (F-33) ----------

  datatype Slot = Slot(height: int, round: int, phase: Bytes)

  function Prune(sent: set<Slot>, height: int): set<Slot> {
    set s | s in sent && s.height >= height
  }

  datatype TrackerOp = RecordOp(slot: Slot) | ResetOp(height: int)

  /** The tracker's slots after a sequence of `record_vote` and `reset_height` calls. */
  function RunTracker(sent: set<Slot>, ops: seq<TrackerOp>): set<Slot> {
    if ops == [] then sent
    else
      var before := RunTracker(sent, ops[..|ops| - 1]);
      match ops[|ops| - 1]
      case RecordOp(slot) => before + {slot}
      case ResetOp(height) => Prune(before, height)
  }

  /** No reset from the i-th call on is for a later height. */
  ghost predicate KeptFrom(ops: seq<TrackerOp>, i: nat, height: int) {
    forall j :: i <= j < |ops| && ops[j].ResetOp? ==> ops[j].height <= height
  }

  ghost predicate Recorded(ops: seq<TrackerOp>, slot: Slot) {
    exists i: nat :: i < |ops| && ops[i] == RecordOp(slot) && KeptFrom(ops, i, slot.height)
  }

  lemma KeptGrows(ops: seq<TrackerOp>, op: TrackerOp, i: nat, height: int)
    requires i <= |ops|
    ensures KeptFrom(ops + [op], i, height) <==> KeptFrom(ops, i, height) && (op.ResetOp? ==> op.height <= height)
  {
    assert (ops + [op])[|ops|] == op;
    assert forall j :: 0 <= j < |ops| ==> (ops + [op])[j] == ops[j];
  }

  lemma RecordedGrows(ops: seq<TrackerOp>, op: TrackerOp, slot: Slot)
    ensures Recorded(ops + [op], slot) <==>
            op == RecordOp(slot) || (Recorded(ops, slot) && (op.ResetOp? ==> op.height <= slot.height))
  {
    var more := ops + [op];
    assert more[|ops|] == op;
    if Recorded(more, slot) && op != RecordOp(slot) {
      var i: nat :| i < |more| && more[i] == RecordOp(slot) && KeptFrom(more, i, slot.height);
      KeptGrows(ops, op, i, slot.height);
      assert ops[i] == RecordOp(slot);
    }
    if op == RecordOp(slot) {
      assert KeptFrom(more, |ops|, slot.height);
    }
    if Recorded(ops, slot) && (op.ResetOp? ==> op.height <= slot.height) {
      var i: nat :| i < |ops| && ops[i] == RecordOp(slot) && KeptFrom(ops, i, slot.height);
      KeptGrows(ops, op, i, slot.height);
      assert more[i] == RecordOp(slot);
    }
  }

  /** A vote is refused for a slot exactly when it was recorded and the tracker was not reset to a later height
      since. */
  lemma {:induction false} TrackerRemembers(sent: set<Slot>, ops: seq<TrackerOp>, slot: Slot)
    ensures slot in RunTracker(sent, ops) <==> (slot in sent && KeptFrom(ops, 0, slot.height)) || Recorded(ops, slot)
  {
    if ops != [] {
      var before, op := ops[..|ops| - 1], ops[|ops| - 1];
      assert ops == before + [op];
      TrackerRemembers(sent, before, slot);
      KeptGrows(before, op, 0, slot.height);
      RecordedGrows(before, op, slot);
      hide KeptFrom, Recorded;
    }
  }

  class VoteSentTracker {
    var sent: set<Slot>

    constructor ()
      ensures sent == {}
    {
      sent := {};
    }

    predicate CanVote(height: int, round: int, phase: Bytes)
      reads this
    {
      Slot(height, round, phase) !in sent
    }

    method RecordVote(height: int, round: int, phase: Bytes)
      modifies this
      ensures sent == old(sent) + {Slot(height, round, phase)} && !CanVote(height, round, phase)
    {
      sent := sent + {Slot(height, round, phase)};
    }

    method ResetHeight(newHeight: int)
      modifies this
      ensures sent == Prune(old(sent), newHeight)
    {
      sent := Prune(sent, newHeight);
    }
  }
}
