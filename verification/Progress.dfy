/** Proposing a block, and what one good round achieves (src/consensus.py). */
module Progress {
  import opened Wrappers
  import opened Ordering
  import opened Crypto
  import opened Transactions
  import opened Blocks
  import opened States
  import opened Executor
  import opened Bodies
  import opened Ledgers
  import opened Chain
  import opened Votes
  import opened VoteSets
  import opened VoteCounting
  import opened Consensus

  // ---------- propose ----------

  datatype ProposalOutcome =
    | Proposed(header: BlockHeader) | NotProposer | ParentMissing | ExecutionFailed | ProposalRaises

  /** The proposer of a slot, from the sorted validator keys. */
  function ProposerOf(validators: seq<Bytes>, height: int, round: int): Bytes
    requires validators != [] && height > 0 && round >= 0
  {
    validators[(height + round) % |validators|]
  }

  /** 32 zero bytes. */
  const GENESIS_PARENT: Bytes :=
    [0, 0, 0, 0, 0, 0, 0, 0, 0, 0, 0, 0, 0, 0, 0, 0, 0, 0, 0, 0, 0, 0, 0, 0, 0, 0, 0, 0, 0, 0, 0, 0]

  ghost function ParentHash(entries: Entries, height: int): Bytes
    requires height - 1 == 0 || height - 1 in entries
  {
    if height - 1 == 0 then GENESIS_PARENT else entries[height - 1].blockHash
  }

  /** The header carries the proposer's signature over its unsigned bytes. */
  function SignedHeader(s: Signer, h: BlockHeader): Option<BlockHeader> {
    match Blocks.UnsignedBytes(h)
    case None => None
    case Some(bytes) => Some(h.(signature := s.sign(bytes)))
  }

  lemma SignedHeaderFields(s: Signer, h: BlockHeader)
    ensures SignedHeader(s, h).Some? <==> Blocks.UnsignedBytes(h).Some?
    ensures SignedHeader(s, h).Some? ==>
              SignedHeader(s, h) == Some(h.(signature := s.sign(Blocks.UnsignedBytes(h).value)))
              && Blocks.UnsignedBytes(SignedHeader(s, h).value) == Blocks.UnsignedBytes(h)
  {
    if Blocks.UnsignedBytes(h).Some? {
      Blocks.UnsignedOmitsSignature(h, s.sign(Blocks.UnsignedBytes(h).value));
    }
    hide Blocks.UnsignedBytes;
  }

  /** `propose`: execute the pending transactions on the finalized parent and commit to the result. */
  ghost function Propose(c: Primitives, cfg: ExecutionConfig, s: Signer, validators: seq<Bytes>, height: int,
                         round: int, entries: Entries, txs: seq<Transaction>): ProposalOutcome
    requires validators != [] && height > 0 && round >= 0
  {
    if ProposerOf(validators, height, round) != s.pubkey then NotProposer
    else match ParentOf(entries, height)
         case None => ParentMissing
         case Some(parent) =>
           match Execute(c, cfg, txs, parent.0, parent.1)
           case Raised => ProposalRaises
           case Rejected(_, _) => ExecutionFailed
           case Success(state, _, _) =>
             match (TxIds(c, txs), StateHash(c, state))
             case (Some(ids), Some(stateHash)) =>
               (match TxRoot(c, ids)
                case None => ProposalRaises
                case Some(root) =>
                  match SignedHeader(s, BlockHeader(s.chainId, height, round, ParentHash(entries, height), root,
                                                    stateHash, s.pubkey, []))
                  case None => ProposalRaises
                  case Some(header) => Proposed(header))
             case _ => ProposalRaises
  }

  /** `propose` without the sending. */
  method ProposeBlock(c: Primitives, cfg: ExecutionConfig, s: Signer, validators: seq<Bytes>, height: int, round: int,
                      ledger: Ledger, txs: seq<Transaction>) returns (r: ProposalOutcome)
    requires validators != [] && height > 0 && round >= 0
    ensures r == Propose(c, cfg, s, validators, height, round, ledger.entries, txs)
    ensures r.Proposed? ==>
              r.header.chainId == s.chainId && r.header.proposerPubkey == s.pubkey
              && Blocks.UnsignedBytes(r.header).Some?
              && r.header.signature == s.sign(Blocks.UnsignedBytes(r.header).value)
  {
    hide Execute, TxId, StateHash, TxRoot, Blocks.UnsignedBytes;
    if ProposerOf(validators, height, round) != s.pubkey {
      return NotProposer;
    }
    var parentHash, parentNonces := GENESIS_PARENT, map[];
    var parent: State;
    if height - 1 == 0 {
      parent := new State();
    } else {
      if height - 1 !in ledger.entries {
        return ParentMissing;
      }
      parentHash := ledger.entries[height - 1].blockHash;
      var stored := ledger.GetState(height - 1);
      parent := stored.value;
      parentNonces := ledger.entries[height - 1].nonces;
    }
    var outcome, post, nonces := ExecuteBlock(c, cfg, txs, parent, parentNonces);
    if outcome.Raised? {
      return ProposalRaises;
    }
    if outcome.Rejected? {
      return ExecutionFailed;
    }
    var ids := ComputeTxIds(c, txs);
    var stateHash := post.Commitment(c);
    if ids == None || stateHash == None {
      return ProposalRaises;
    }
    var root := ComputeTxRoot(c, ids.value);
    if root == None {
      return ProposalRaises;
    }
    var draft := BlockHeader(s.chainId, height, round, parentHash, root.value, stateHash.value, s.pubkey, []);
    SignedHeaderFields(s, draft);
    var header := SignedHeader(s, draft);
    return if header == None then ProposalRaises else Proposed(header.value);
  }

  /** Two ledgers with the same last block at the parent height. */
  ghost predicate SameParent(entries: Entries, entries': Entries, height: int) {
    FinalizedHeight(entries) == height - 1 == FinalizedHeight(entries')
    && (height > 1 ==> height - 1 in entries && height - 1 in entries' && entries[height - 1] == entries'[height - 1])
  }

  /** A proposal: who makes it, for which slot, on which chain, with which transactions. */
  datatype Plan = Plan(s: Signer, order: seq<Bytes>, height: int, round: int, entries: Entries, txs: seq<Transaction>)

  ghost function Proposal(c: Primitives, cfg: ExecutionConfig, plan: Plan): ProposalOutcome
    requires plan.order != [] && plan.height > 0 && plan.round >= 0
  {
    Propose(c, cfg, plan.s, plan.order, plan.height, plan.round, plan.entries, plan.txs)
  }

  /** The proposal succeeds and its header hashes to b. */
  ghost predicate Proposes(c: Primitives, cfg: ExecutionConfig, plan: Plan, b: Bytes) {
    plan.order != [] && plan.height > 0 && plan.round >= 0 && Proposal(c, cfg, plan).Proposed?
    && BlockHash(c, Proposal(c, cfg, plan).header) == Some(b)
  }

  ghost function PlannedBlock(c: Primitives, cfg: ExecutionConfig, plan: Plan, b: Bytes): Block
    requires Proposes(c, cfg, plan, b)
  {
    Block(Proposal(c, cfg, plan).header, plan.txs)
  }

  /** The entry everybody is meant to append. */
  ghost function PlannedEntry(c: Primitives, cfg: ExecutionConfig, plan: Plan, b: Bytes): LedgerEntry
    requires Proposes(c, cfg, plan, b)
  {
    var parent := ParentOf(plan.entries, plan.height).value;
    var out := Execute(c, cfg, plan.txs, parent.0, parent.1);
    LedgerEntry(plan.height, b, Proposal(c, cfg, plan).header, out.ids, out.state, out.nonces)
  }

  /** What `propose` built is accepted by every ledger with the same parent, and gives the same entry there. */
  lemma ProposalCommits(c: Primitives, cfg: ExecutionConfig, plan: Plan, b: Bytes, L: LedgerState)
    requires Proposes(c, cfg, plan, b)
    requires SameParent(plan.entries, L.entries, plan.height) && L.chainId == plan.s.chainId
    ensures var (L', out) := Commit(c, cfg, L, PlannedBlock(c, cfg, plan, b), NoFault);
            out == Committed(PlannedEntry(c, cfg, plan, b))
            && L'.entries == L.entries[plan.height := PlannedEntry(c, cfg, plan, b)]
    ensures PlannedBlock(c, cfg, plan, b).header.height == plan.height
    ensures PlannedBlock(c, cfg, plan, b).header.round == plan.round
  {
    hide TxId, StateHash, TxRoot, BlockHash, Blocks.UnsignedBytes, Execute;
    assert ParentOf(plan.entries, plan.height) == ParentOf(L.entries, plan.height);
    ProposalIsValid(c, cfg, plan.s, plan.order, plan.height, plan.round, plan.entries, plan.txs);
    ZeroHeight(L.entries);
  }

  lemma ZeroHeight(entries: Entries)
    ensures FinalizedHeight(entries) + 1 > 1 ==> FinalizedHeight(entries) in entries
  {
  }

  lemma ProposalIsValid(c: Primitives, cfg: ExecutionConfig, s: Signer, validators: seq<Bytes>, height: int, round: int,
                        entries: Entries, txs: seq<Transaction>)
    requires validators != [] && height > 0 && round >= 0
    requires Propose(c, cfg, s, validators, height, round, entries, txs).Proposed?
    ensures var header := Propose(c, cfg, s, validators, height, round, entries, txs).header;
            var parent := ParentOf(entries, height).value;
            var out := Execute(c, cfg, txs, parent.0, parent.1);
            out.Success?
            && ValidateBody(c, cfg, header, txs, parent.0, parent.1) == Valid(out.state, out.nonces, out.ids)
            && header.chainId == s.chainId && header.height == height && header.round == round
            && header.parentHash == ParentHash(entries, height)
  {
    hide TxId, StateHash, TxRoot, Blocks.UnsignedBytes, Execute;
  }

  // ---------- one good round ----------

  /** The votes a node receives during the round, besides its own. */
  datatype Inbox = Inbox(prevotes: seq<Vote>, precommits: seq<Vote>)

  /** Validators, and the signing oracle of each. */
  datatype Setting = Setting(c: Primitives, cfg: ExecutionConfig, chainId: Bytes, validators: set<Bytes>,
                             keys: Bytes -> (Bytes -> Bytes))

  function N(S: Setting): int {
    |S.validators|
  }

  function SignerIn(S: Setting, p: Bytes): Signer {
    Signer(S.chainId, p, S.keys(p))
  }

  /** The node, and the vote it sent, after prevoting for b. */
  ghost function AfterPrevote(S: Setting, p: Bytes, node: Node, b: Bytes): (Node, Vote)
    requires N(S) >= 1 && |b| == HASH_SIZE
  {
    MakePrevote(node, SignerIn(S, p), b, N(S)).value
  }

  /** … after receiving prevotes, locking and precommitting. */
  ghost function AfterPrecommit(S: Setting, p: Bytes, node: Node, b: Bytes, inbox: Inbox): (Node, Vote)
    requires N(S) >= 1 && |b| == HASH_SIZE
  {
    var voted := AfterPrevote(S, p, node, b).0;
    var informed := voted.(prevotes := AddAll(voted.prevotes, inbox.prevotes));
    MakePrecommit(ApplyLock(informed, informed.round, N(S)).0, SignerIn(S, p), N(S))
  }

  /** … after receiving precommits and finalizing. */
  ghost function AfterRound(S: Setting, p: Bytes, node: Node, L: LedgerState, b: Bytes, inbox: Inbox)
    : (Node, LedgerState, FinalizeOutcome)
    requires N(S) >= 1 && |b| == HASH_SIZE
  {
    var voted := AfterPrecommit(S, p, node, b, inbox).0;
    TryFinalize(S.c, S.cfg, voted.(precommits := AddAll(voted.precommits, inbox.precommits)), L, N(S), NoFault)
  }

  /** Stored or received votes come from validators; those of the good ones in the slot are for b. */
  ghost predicate Favours(v: Vote, S: Setting, good: set<Bytes>, height: int, round: int, phase: Bytes, b: Bytes) {
    v.validatorPubkey in S.validators
    && (v.validatorPubkey in good && v.height == height && v.round == round && v.phase == phase ==> v.block == Some(b))
  }

  ghost predicate SetFavours(votes: Stored, S: Setting, good: set<Bytes>, height: int, round: int, phase: Bytes,
                             b: Bytes) {
    WellKeyed(votes) && forall k :: k in votes ==> Favours(votes[k], S, good, height, round, phase, b)
  }

  ghost predicate ListFavours(list: seq<Vote>, S: Setting, good: set<Bytes>, height: int, round: int, phase: Bytes,
                              b: Bytes) {
    forall v :: v in list ==> Favours(v, S, good, height, round, phase, b)
  }

  lemma {:induction false} AddAllFavours(votes: Stored, list: seq<Vote>, S: Setting, good: set<Bytes>, height: int,
                                         round: int, phase: Bytes, b: Bytes)
    requires SetFavours(votes, S, good, height, round, phase, b) && ListFavours(list, S, good, height, round, phase, b)
    ensures SetFavours(AddAll(votes, list), S, good, height, round, phase, b)
  {
    hide Favours;
    AddAllKeeps(votes, list);
    var all := AddAll(votes, list);
    forall k | k in all ensures Favours(all[k], S, good, height, round, phase, b) {
      assert k in votes ==> all[k] == votes[k];
    }
  }

  /** When every good validator's vote is stored and favours b, b has a quorum and no other block does. */
  lemma OnlyQuorum(votes: Stored, S: Setting, good: set<Bytes>, height: int, round: int, phase: Bytes, b: Bytes)
    requires N(S) >= 1 && N(S) != 2 && N(S) != 3 && N(S) != 6
    requires good <= S.validators && |good| >= Threshold(N(S))
    requires SetFavours(votes, S, good, height, round, phase, b)
    requires forall q :: q in good ==> VoteKey(height, round, phase, q) in votes
    ensures HasQuorum(votes, height, round, phase, N(S), Some(b))
    ensures QuorumBlocks(votes, height, round, phase, N(S)) == {b}
  {
    var voters := Voters(votes, height, round, phase, Some(b));
    forall q | q in good ensures q in voters {
      var k := VoteKey(height, round, phase, q);
      assert KeyOf(votes[k]) == k;
      assert Favours(votes[k], S, good, height, round, phase, b);
      assert Supports(votes[k], height, round, phase, Some(b));
    }
    SubsetSize(good, voters);
    SignedByAll(votes, S, good, height, round, phase, b);
    QuorumBlocksMeans(votes, height, round, phase, N(S), b);
    forall x | x in QuorumBlocks(votes, height, round, phase, N(S)) ensures x == b {
      QuorumBlocksMeans(votes, height, round, phase, N(S), x);
      UniqueQuorum(votes, S.validators, height, round, phase, x, b);
    }
  }

  lemma SignedByAll(votes: Stored, S: Setting, good: set<Bytes>, height: int, round: int, phase: Bytes, b: Bytes)
    requires SetFavours(votes, S, good, height, round, phase, b)
    ensures SignedBy(votes, S.validators)
  {
    forall k | k in votes ensures k.validator in S.validators {
      assert KeyOf(votes[k]) == k && Favours(votes[k], S, good, height, round, phase, b);
    }
  }

  /** A good validator at the start of the round: at the slot, unlocked or locked on b, holding b's header and body,
      on the proposer's parent, with nothing stored that speaks against b for a good validator. */
  ghost predicate Ready(S: Setting, good: set<Bytes>, node: Node, L: LedgerState, plan: Plan, b: Bytes)
    requires Proposes(S.c, S.cfg, plan, b)
  {
    && Starts(S, good, node, plan.height, plan.round, b)
    && node.store.headers[b] == PlannedBlock(S.c, S.cfg, plan, b).header
    && b in node.store.bodies && node.store.bodies[b] == PlannedBlock(S.c, S.cfg, plan, b).body
    && L.chainId == plan.s.chainId && SameParent(plan.entries, L.entries, plan.height)
  }

  /** The part of it that concerns voting. */
  ghost predicate Starts(S: Setting, good: set<Bytes>, node: Node, height: int, round: int, b: Bytes) {
    && node.height == height && node.round == round && (node.lockedHash == None || node.lockedHash == Some(b))
    && b in node.store.headers
    && SetFavours(node.prevotes, S, good, height, round, PREVOTE, b)
    && SetFavours(node.precommits, S, good, height, round, PRECOMMIT, b)
  }

  lemma PrevotesForBlock(S: Setting, p: Bytes, good: set<Bytes>, node: Node, height: int, round: int, b: Bytes)
    requires N(S) >= 1 && |b| == HASH_SIZE && p in good && p in S.validators
    requires Starts(S, good, node, height, round, b)
    ensures var (after, v) := AfterPrevote(S, p, node, b);
            v.block == Some(b) && KeyOf(v) == VoteKey(height, round, PREVOTE, p)
            && SetFavours(after.prevotes, S, good, height, round, PREVOTE, b) && KeyOf(v) in after.prevotes
            && after == node.(prevotes := after.prevotes)
  {
    hide SignedVote;
    SignedVoteFields(SignerIn(S, p), height, round, PREVOTE, Some(b));
  }

  /** Having the prevotes of all good validators, a node locks b and precommits b. */
  lemma PrecommitsBlock(S: Setting, p: Bytes, good: set<Bytes>, node: Node, height: int, round: int, b: Bytes,
                        inbox: Inbox)
    requires N(S) >= 1 && N(S) != 2 && N(S) != 3 && N(S) != 6 && |b| == HASH_SIZE
    requires good <= S.validators && |good| >= Threshold(N(S)) && p in good
    requires Starts(S, good, node, height, round, b)
    requires ListFavours(inbox.prevotes, S, good, height, round, PREVOTE, b)
    requires Heard(inbox.prevotes, good, height, round, PREVOTE)
    ensures var (after, v) := AfterPrecommit(S, p, node, b, inbox);
            v.block == Some(b) && KeyOf(v) == VoteKey(height, round, PRECOMMIT, p)
            && after.lockedHash == Some(b) && after.lockedRound == Some(round) && after.validHash == Some(b)
            && after.height == height && after.round == round && after.store == node.store
            && SetFavours(after.precommits, S, good, height, round, PRECOMMIT, b)
  {
    hide SignedVote, SetFavours, ListFavours, QuorumBlocks, HasQuorum, AddAll;
    PrevotesForBlock(S, p, good, node, height, round, b);
    var voted := AfterPrevote(S, p, node, b).0;
    var informed := voted.(prevotes := AddAll(voted.prevotes, inbox.prevotes));
    AddAllFavours(voted.prevotes, inbox.prevotes, S, good, height, round, PREVOTE, b);
    AllStored(voted.prevotes, inbox.prevotes, S, good, height, round, PREVOTE, b);
    OnlyQuorum(informed.prevotes, S, good, height, round, PREVOTE, b);
    assert Lockable(informed, round, N(S)) == {b};
    var locked := ApplyLock(informed, round, N(S)).0;
    SignedVoteFields(SignerIn(S, p), height, round, PRECOMMIT, Some(b));
    var v := SignedVote(SignerIn(S, p), height, round, PRECOMMIT, Some(b));
    KeepFavours(node.precommits, v, S, good, height, round, PRECOMMIT, b);
  }

  lemma KeepFavours(votes: Stored, v: Vote, S: Setting, good: set<Bytes>, height: int, round: int, phase: Bytes,
                    b: Bytes)
    requires SetFavours(votes, S, good, height, round, phase, b) && Favours(v, S, good, height, round, phase, b)
    ensures SetFavours(Keep(votes, v), S, good, height, round, phase, b)
  {
    hide Favours;
  }

  lemma AllStored(votes: Stored, list: seq<Vote>, S: Setting, good: set<Bytes>, height: int, round: int, phase: Bytes,
                  b: Bytes)
    requires SetFavours(votes, S, good, height, round, phase, b)
    requires Heard(list, good, height, round, phase)
    ensures forall q :: q in good ==> VoteKey(height, round, phase, q) in AddAll(votes, list)
  {
    AddAllKeeps(votes, list);
  }

  /** The node finalized the planned block and went on to the next height. */
  ghost predicate Achieved(S: Setting, plan: Plan, b: Bytes, node: Node, L: LedgerState,
                           result: (Node, LedgerState, FinalizeOutcome))
    requires Proposes(S.c, S.cfg, plan, b)
  {
    var entry := PlannedEntry(S.c, S.cfg, plan, b);
    result.2 == Finalized(entry) && entry.height == plan.height && entry.blockHash == b
    && result.1.entries == L.entries[plan.height := entry] && result.0 == NewHeight(node, plan.height + 1)
  }

  /** Having the precommits of all good validators too, the node finalizes the planned block. */
  lemma FinalizesBlock(S: Setting, p: Bytes, good: set<Bytes>, node: Node, L: LedgerState, b: Bytes, inbox: Inbox,
                       plan: Plan)
    requires N(S) >= 1 && N(S) != 2 && N(S) != 3 && N(S) != 6 && |b| == HASH_SIZE
    requires good <= S.validators && |good| >= Threshold(N(S)) && p in good
    requires Proposes(S.c, S.cfg, plan, b) && Ready(S, good, node, L, plan, b)
    requires ListFavours(inbox.prevotes, S, good, plan.height, plan.round, PREVOTE, b)
    requires ListFavours(inbox.precommits, S, good, plan.height, plan.round, PRECOMMIT, b)
    requires Heard(inbox.prevotes, good, plan.height, plan.round, PREVOTE)
    requires Heard(inbox.precommits, good, plan.height, plan.round, PRECOMMIT)
    ensures Achieved(S, plan, b, node, L, AfterRound(S, p, node, L, b, inbox))
  {
    hide SignedVote, SetFavours, ListFavours, Heard, QuorumBlocks, HasQuorum, AddAll, AfterPrecommit, Proposes, Commit,
         PlannedEntry, SameParent, PlannedBlock;
    PrecommitsBlock(S, p, good, node, plan.height, plan.round, b, inbox);
    var voted := AfterPrecommit(S, p, node, b, inbox).0;
    var ready := voted.(precommits := AddAll(voted.precommits, inbox.precommits));
    AddAllFavours(voted.precommits, inbox.precommits, S, good, plan.height, plan.round, PRECOMMIT, b);
    AllStored(voted.precommits, inbox.precommits, S, good, plan.height, plan.round, PRECOMMIT, b);
    OnlyQuorum(ready.precommits, S, good, plan.height, plan.round, PRECOMMIT, b);
    FirstOfIs({b}, b);
    ProposalCommits(S.c, S.cfg, plan, b, L);
    PlannedFields(S.c, S.cfg, plan, b);
    assert Block(ready.store.headers[b], ready.store.bodies[b]) == PlannedBlock(S.c, S.cfg, plan, b);
  }

  lemma PlannedFields(c: Primitives, cfg: ExecutionConfig, plan: Plan, b: Bytes)
    requires Proposes(c, cfg, plan, b)
    ensures PlannedEntry(c, cfg, plan, b).height == plan.height && PlannedEntry(c, cfg, plan, b).blockHash == b
  {
    hide Propose, BlockHash;
  }

  /** A vote of every good validator in the slot is in the list. */
  ghost predicate Heard(list: seq<Vote>, good: set<Bytes>, height: int, round: int, phase: Bytes) {
    forall q :: q in good ==> exists v :: v in list && KeyOf(v) == VoteKey(height, round, phase, q)
  }

  /** Only validators signed, and under the given key only the given block was named. */
  ghost predicate FromCommittee(list: seq<Vote>, S: Setting, key: VoteKey, block: Option<Bytes>) {
    forall v :: v in list ==> v.validatorPubkey in S.validators && (KeyOf(v) == key ==> v.block == block)
  }

  /** The good validators' votes reach every good validator; nothing else is assumed of the inboxes than that votes
      come from validators and that a good validator has one vote per slot. */
  ghost predicate Exchanged(S: Setting, good: set<Bytes>, nodes: map<Bytes, Node>, inboxes: map<Bytes, Inbox>, b: Bytes)
    requires N(S) >= 1 && |b| == HASH_SIZE
    requires good <= nodes.Keys && good <= inboxes.Keys
  {
    forall p, q :: p in good && q in good ==>
      && AfterPrevote(S, q, nodes[q], b).1 in inboxes[p].prevotes
      && AfterPrecommit(S, q, nodes[q], b, inboxes[q]).1 in inboxes[p].precommits
      && FromCommittee(inboxes[p].prevotes, S, KeyOf(AfterPrevote(S, q, nodes[q], b).1),
                       AfterPrevote(S, q, nodes[q], b).1.block)
      && FromCommittee(inboxes[p].precommits, S, KeyOf(AfterPrecommit(S, q, nodes[q], b, inboxes[q]).1),
                       AfterPrecommit(S, q, nodes[q], b, inboxes[q]).1.block)
  }

  lemma PrevotesArrive(S: Setting, good: set<Bytes>, nodes: map<Bytes, Node>, inboxes: map<Bytes, Inbox>, b: Bytes,
                       height: int, round: int, p: Bytes)
    requires N(S) >= 1 && |b| == HASH_SIZE && good <= nodes.Keys && good <= inboxes.Keys && good <= S.validators
    requires p in good
    requires Exchanged(S, good, nodes, inboxes, b)
    requires forall q :: q in good ==> Starts(S, good, nodes[q], height, round, b)
    ensures ListFavours(inboxes[p].prevotes, S, good, height, round, PREVOTE, b)
    ensures Heard(inboxes[p].prevotes, good, height, round, PREVOTE)
  {
    hide AfterPrevote, AfterPrecommit, Starts;
    forall q | q in good
      ensures AfterPrevote(S, q, nodes[q], b).1.block == Some(b)
      ensures KeyOf(AfterPrevote(S, q, nodes[q], b).1) == VoteKey(height, round, PREVOTE, q)
    {
      PrevotesForBlock(S, q, good, nodes[q], height, round, b);
    }
    assert AfterPrevote(S, p, nodes[p], b).1 in inboxes[p].prevotes;
    forall v | v in inboxes[p].prevotes ensures Favours(v, S, good, height, round, PREVOTE, b) {
      if v.validatorPubkey in good {
        assert AfterPrevote(S, v.validatorPubkey, nodes[v.validatorPubkey], b).1 in inboxes[p].prevotes;
      }
    }
    forall q | q in good
      ensures exists v :: v in inboxes[p].prevotes && KeyOf(v) == VoteKey(height, round, PREVOTE, q)
    {
      assert AfterPrevote(S, q, nodes[q], b).1 in inboxes[p].prevotes;
    }
  }

  lemma PrecommitsArrive(S: Setting, good: set<Bytes>, nodes: map<Bytes, Node>, inboxes: map<Bytes, Inbox>, b: Bytes,
                         height: int, round: int, p: Bytes)
    requires N(S) >= 1 && N(S) != 2 && N(S) != 3 && N(S) != 6 && |b| == HASH_SIZE
    requires good <= nodes.Keys && good <= inboxes.Keys && good <= S.validators && |good| >= Threshold(N(S))
    requires p in good
    requires Exchanged(S, good, nodes, inboxes, b)
    requires forall q :: q in good ==> Starts(S, good, nodes[q], height, round, b)
    ensures ListFavours(inboxes[p].precommits, S, good, height, round, PRECOMMIT, b)
    ensures Heard(inboxes[p].precommits, good, height, round, PRECOMMIT)
  {
    hide AfterPrevote, AfterPrecommit, Starts;
    forall q | q in good
      ensures AfterPrecommit(S, q, nodes[q], b, inboxes[q]).1.block == Some(b)
      ensures KeyOf(AfterPrecommit(S, q, nodes[q], b, inboxes[q]).1) == VoteKey(height, round, PRECOMMIT, q)
    {
      PrevotesArrive(S, good, nodes, inboxes, b, height, round, q);
      PrecommitsBlock(S, q, good, nodes[q], height, round, b, inboxes[q]);
    }
    forall v | v in inboxes[p].precommits ensures Favours(v, S, good, height, round, PRECOMMIT, b) {
      var q := if v.validatorPubkey in good then v.validatorPubkey else p;
      assert AfterPrecommit(S, q, nodes[q], b, inboxes[q]).1 in inboxes[p].precommits;
    }
    forall q | q in good
      ensures exists v :: v in inboxes[p].precommits && KeyOf(v) == VoteKey(height, round, PRECOMMIT, q)
    {
      assert AfterPrecommit(S, q, nodes[q], b, inboxes[q]).1 in inboxes[p].precommits;
    }
  }

  /** Round progress. If at least 2f + 1 validators start a round on the same parent, each unlocked or locked on the
      proposed block and holding it, and exchange their votes, then every one of them finalizes that block, with the
      same entry, and moves to the next height: whatever the other validators vote, for every n except 2, 3 and 6. */
  lemma RoundProgress(S: Setting, good: set<Bytes>, nodes: map<Bytes, Node>, ledgers: map<Bytes, LedgerState>,
                      inboxes: map<Bytes, Inbox>, plan: Plan, b: Bytes)
    requires N(S) >= 1 && N(S) != 2 && N(S) != 3 && N(S) != 6 && |b| == HASH_SIZE
    requires good <= nodes.Keys && good <= ledgers.Keys && good <= inboxes.Keys && good <= S.validators
    requires |good| >= Threshold(N(S))
    requires Proposes(S.c, S.cfg, plan, b) && forall p :: p in good ==> Ready(S, good, nodes[p], ledgers[p], plan, b)
    requires Exchanged(S, good, nodes, inboxes, b)
    ensures forall p :: p in good ==>
              Achieved(S, plan, b, nodes[p], ledgers[p], AfterRound(S, p, nodes[p], ledgers[p], b, inboxes[p]))
  {
    hide Proposes, Starts, Exchanged, AfterRound, Achieved;
    forall p | p in good
      ensures Achieved(S, plan, b, nodes[p], ledgers[p], AfterRound(S, p, nodes[p], ledgers[p], b, inboxes[p]))
    {
      PrevotesArrive(S, good, nodes, inboxes, b, plan.height, plan.round, p);
      PrecommitsArrive(S, good, nodes, inboxes, b, plan.height, plan.round, p);
      FinalizesBlock(S, p, good, nodes[p], ledgers[p], b, inboxes[p], plan);
    }
  }
}
