/** The hypotheses of round progress can be met: a single validator finalizes its own empty block. */
module SoloRounds {
  import opened Wrappers
  import opened Ordering
  import opened Crypto
  import opened Blocks
  import opened States
  import opened Executor
  import opened Bodies
  import opened Ledgers
  import opened Chain
  import opened Votes
  import opened VoteSets
  import opened BlockStores
  import opened Consensus
  import opened Progress

  /** One validator with an encodable key and signatures, on the chain with the empty identifier. */
  ghost predicate Solo(S: Setting, p: Bytes) {
    S.validators == {p} && S.chainId == [] && |p| < Encoding.UINT32_LIMIT
    && forall bytes :: |S.keys(p)(bytes)| < Encoding.UINT32_LIMIT
  }

  /** An empty block for height 1, proposed by the only validator. */
  function SoloPlan(S: Setting, p: Bytes): Plan {
    Plan(SignerIn(S, p), [p], 1, 0, map[], [])
  }

  lemma NothingToHash(c: Primitives)
    ensures TxIds(c, []) == Some([]) && TxRoot(c, []).Some? && StateHash(c, map[]).Some?
  {
    var none: map<Bytes, Bytes> := map[];
    assert Encoding.Items(none) == [];
    hide Encoding.EncodeUint64;
  }

  lemma SoloHeaderIsEncodable(h: BlockHeader)
    requires h.chainId == [] && h.height == 1 && h.round == 0 && |h.signature| < Encoding.UINT32_LIMIT
    requires |h.parentHash| == 32 && |h.txRoot| == 32 && |h.stateHash| == 32
    requires |h.proposerPubkey| < Encoding.UINT32_LIMIT
    ensures Blocks.UnsignedBytes(h).Some? && Blocks.SignedBytes(h).Some?
  {
    hide Encoding.EncodeBytes, Encoding.EncodeUint64;
  }

  lemma SoloProposes(S: Setting, p: Bytes) returns (b: Bytes)
    requires Solo(S, p)
    ensures |b| == HASH_SIZE && Proposes(S.c, S.cfg, SoloPlan(S, p), b)
  {
    NothingToHash(S.c);
    hide TxRoot, StateHash, TxIds, Blocks.UnsignedBytes, Blocks.SignedBytes;
    assert Execute(S.c, S.cfg, [], map[], map[]) == Success(map[], map[], []);
    hide Execute;
    var unsigned := BlockHeader([], 1, 0, GENESIS_PARENT, TxRoot(S.c, []).value, StateHash(S.c, map[]).value, p, []);
    SoloHeaderIsEncodable(unsigned);
    var header := SignedHeader(SignerIn(S, p), unsigned).value;
    SoloHeaderIsEncodable(header);
    assert ParentOf(map[], 1) == Some((map[], map[]));
    hide SignedHeader;
    assert Proposal(S.c, S.cfg, SoloPlan(S, p)) == Proposed(header);
    b := BlockHash(S.c, header).value;
  }

  function SoloNode(b: Bytes, header: BlockHeader): Node {
    Node(1, 0, None, None, None, Store(map[b := header], map[b := []]), map[], map[])
  }

  const EMPTY_LEDGER: LedgerState := LedgerState([], map[], false, None)

  lemma SoloIsReady(S: Setting, p: Bytes, b: Bytes)
    requires Solo(S, p) && Proposes(S.c, S.cfg, SoloPlan(S, p), b)
    ensures Ready(S, {p}, SoloNode(b, PlannedBlock(S.c, S.cfg, SoloPlan(S, p), b).header), EMPTY_LEDGER,
                  SoloPlan(S, p), b)
  {
    hide Proposes, Proposal;
  }

  /** The precommit depends on the prevotes received, not on the precommits. */
  lemma SamePrecommit(S: Setting, p: Bytes, node: Node, b: Bytes, inbox: Inbox, heard: Inbox)
    requires N(S) >= 1 && |b| == HASH_SIZE && inbox.prevotes == heard.prevotes
    ensures AfterPrecommit(S, p, node, b, inbox) == AfterPrecommit(S, p, node, b, heard)
  {
    hide MakePrecommit, ApplyLock, AfterPrevote;
  }

  /** With only one validator its own two votes are all that is exchanged. */
  lemma SoloExchange(S: Setting, p: Bytes, nodes: map<Bytes, Node>, inboxes: map<Bytes, Inbox>, b: Bytes, prevote: Vote,
                     precommit: Vote)
    requires S.validators == {p} && |b| == HASH_SIZE && p in nodes && p in inboxes
    requires prevote == AfterPrevote(S, p, nodes[p], b).1 && prevote.validatorPubkey == p
    requires precommit == AfterPrecommit(S, p, nodes[p], b, inboxes[p]).1 && precommit.validatorPubkey == p
    requires inboxes[p] == Inbox([prevote], [precommit])
    ensures Exchanged(S, {p}, nodes, inboxes, b)
  {
    hide AfterPrevote, AfterPrecommit;
    assert FromCommittee([prevote], S, KeyOf(prevote), prevote.block);
    assert FromCommittee([precommit], S, KeyOf(precommit), precommit.block);
    hide FromCommittee;
  }

  lemma SoloSigns(S: Setting, p: Bytes, node: Node, b: Bytes, inbox: Inbox)
    requires S.validators == {p} && |b| == HASH_SIZE
    ensures AfterPrevote(S, p, node, b).1.validatorPubkey == p
    ensures AfterPrecommit(S, p, node, b, inbox).1.validatorPubkey == p
  {
    hide SignedVote, VoteCounting.AddAll, ApplyLock, PrecommitTarget, PrevoteTarget;
    SignedVoteFields(SignerIn(S, p), node.height, node.round, PREVOTE, PrevoteTarget(node, b, 1));
    var voted := AfterPrevote(S, p, node, b).0;
    var informed := voted.(prevotes := VoteCounting.AddAll(voted.prevotes, inbox.prevotes));
    var locked := ApplyLock(informed, informed.round, 1).0;
    SignedVoteFields(SignerIn(S, p), locked.height, locked.round, PRECOMMIT, PrecommitTarget(locked, 1));
  }

  /** The hypotheses of `RoundProgress` hold of a single validator, whatever the hash and the signing oracle. */
  lemma SoloHypotheses(S: Setting, p: Bytes) returns (b: Bytes, node: Node, inbox: Inbox)
    requires Solo(S, p)
    ensures |b| == HASH_SIZE && Proposes(S.c, S.cfg, SoloPlan(S, p), b) && S.validators == {p}
    ensures Ready(S, {p}, node, EMPTY_LEDGER, SoloPlan(S, p), b)
    ensures Exchanged(S, {p}, map[p := node], map[p := inbox], b)
  {
    b := SoloProposes(S, p);
    hide Proposes, Exchanged, AfterPrevote, AfterPrecommit, Ready, PlannedBlock;
    node := SoloNode(b, PlannedBlock(S.c, S.cfg, SoloPlan(S, p), b).header);
    SoloIsReady(S, p, b);
    var prevote := AfterPrevote(S, p, node, b).1;
    var heard := Inbox([prevote], []);
    var precommit := AfterPrecommit(S, p, node, b, heard).1;
    inbox := Inbox([prevote], [precommit]);
    SoloSigns(S, p, node, b, heard);
    SamePrecommit(S, p, node, b, inbox, heard);
    SoloExchange(S, p, map[p := node], map[p := inbox], b, prevote, precommit);
  }

  lemma AchievedMeans(S: Setting, plan: Plan, b: Bytes, node: Node, L: LedgerState,
                      result: (Node, LedgerState, FinalizeOutcome))
    requires Proposes(S.c, S.cfg, plan, b) && Achieved(S, plan, b, node, L, result)
    ensures result.2.Finalized? && plan.height in result.1.entries && result.1.entries[plan.height].blockHash == b
    ensures result.0 == NewHeight(node, plan.height + 1)
  {
    hide Proposes, PlannedEntry;
  }

  lemma SoloProgress(S: Setting, p: Bytes, node: Node, L: LedgerState, inbox: Inbox, plan: Plan, b: Bytes)
    requires S.validators == {p} && |b| == HASH_SIZE
    requires Proposes(S.c, S.cfg, plan, b) && Ready(S, {p}, node, L, plan, b)
    requires Exchanged(S, {p}, map[p := node], map[p := inbox], b)
    ensures Achieved(S, plan, b, node, L, AfterRound(S, p, node, L, b, inbox))
  {
    hide Proposes, Exchanged, AfterRound, Ready, Achieved;
    RoundProgress(S, {p}, map[p := node], map[p := L], map[p := inbox], plan, b);
  }

  /** So they are not contradictory, and what follows from them is a block on a ledger. */
  lemma SoloRound(S: Setting, p: Bytes)
    returns (b: Bytes, node: Node, inbox: Inbox, result: (Node, LedgerState, FinalizeOutcome))
    requires Solo(S, p)
    ensures |b| == HASH_SIZE && N(S) >= 1 && result == AfterRound(S, p, node, EMPTY_LEDGER, b, inbox)
    ensures result.2.Finalized? && 1 in result.1.entries && result.1.entries[1].blockHash == b
    ensures result.0 == NewHeight(node, 2)
  {
    b, node, inbox := SoloHypotheses(S, p);
    hide Proposes, Exchanged, AfterRound, Ready, Achieved;
    SoloProgress(S, p, node, EMPTY_LEDGER, inbox, SoloPlan(S, p), b);
    result := AfterRound(S, p, node, EMPTY_LEDGER, b, inbox);
    AchievedMeans(S, SoloPlan(S, p), b, node, EMPTY_LEDGER, result);
  }
}
