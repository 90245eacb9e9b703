/** Exactly when a block is proposed, committed and finalized, and that correct validators sign what they send
    (src/consensus.py). */
module Decisions {
  import opened Wrappers
  import opened Ordering
  import opened Crypto
  import opened Transactions
  import opened Blocks
  import opened States
  import opened Executor
  import opened Bodies
  import opened Ledgers
  import opened Chain
  import opened Votes
  import opened Consensus
  import opened Agreement
  import opened Acceptance
  import opened Progress

  // ---------- commit ----------

  /** The parent of a height is stored; below height 1 it is the empty state. */
  ghost predicate HasParent(entries: Entries, height: int) {
    height == 1 || height - 1 in entries
  }

  function ParentState(entries: Entries, height: int): Contents {
    if height == 1 || height - 1 !in entries then map[] else entries[height - 1].state
  }

  function ParentNonces(entries: Entries, height: int): Nonces {
    if height == 1 || height - 1 !in entries then map[] else entries[height - 1].nonces
  }

  /** The body executes on the parent and is what the header commits to. */
  ghost predicate SoundBody(c: Primitives, cfg: ExecutionConfig, entries: Entries, block: Block) {
    var state, nonces := ParentState(entries, block.header.height), ParentNonces(entries, block.header.height);
    var out := Execute(c, cfg, block.body, state, nonces);
    AllAdmissible(c, cfg, block.body, nonces) && RootIs(c, block.body, block.header.txRoot)
    && out.Success? && StateHash(c, out.state) == Some(block.header.stateHash)
  }

  /** A block is committed exactly when its parent is stored, its body is sound, its header extends the head and can be
      hashed, and nothing interrupts the write. A block whose parent is missing or whose body is unsound leaves the
      ledger alone. */
  lemma CommitsExactlyWhen(c: Primitives, cfg: ExecutionConfig, L: LedgerState, block: Block, fault: Fault)
    ensures var (L', out) := Commit(c, cfg, L, block, fault);
            (out.Committed? <==>
               HasParent(L.entries, block.header.height) && SoundBody(c, cfg, L.entries, block)
               && Extending(L, block.header) && BlockHash(c, block.header).Some?
               && (fault == NoFault || (fault == WriteFails && !L.stored)))
            && (out.ParentNotFinalized? <==> !HasParent(L.entries, block.header.height))
            && (out.BodyInvalid? || out.BodyRaises? ==>
                  HasParent(L.entries, block.header.height) && !SoundBody(c, cfg, L.entries, block) && L' == L)
            && (out.LedgerRaises? ==>
                  HasParent(L.entries, block.header.height) && SoundBody(c, cfg, L.entries, block))
  {
    var state, nonces := ParentState(L.entries, block.header.height), ParentNonces(L.entries, block.header.height);
    BodyValidExactlyWhen(c, cfg, block.header, block.body, state, nonces);
    assert HasParent(L.entries, block.header.height) ==>
             ParentOf(L.entries, block.header.height) == Some((state, nonces));
    var verdict := ValidateBody(c, cfg, block.header, block.body, state, nonces);
    hide BlockHash, ValidateBody, Execute, AllAdmissible, RootIs, StateHash, Ledgers.Finalize;
    if verdict.Valid? {
      FinalizesExactlyWhen(c, L, block.header, verdict.ids, verdict.state, verdict.nonces, fault);
    }
    hide Extending;
  }

  // ---------- finalize ----------

  /** The first block in sorted order with a precommit quorum in the node's slot. */
  ghost predicate Chosen(node: Node, n: int, b: Bytes) {
    FirstQuorate(node.precommits, node.height, node.round, PRECOMMIT, n, None, b)
  }

  /** Finalization takes the chosen block, needs its header and its body, and commits it; the node then starts the next
      height afresh. In every other case the node stays as it is. */
  lemma NodeFinalizesExactlyWhen(c: Primitives, cfg: ExecutionConfig, node: Node, L: LedgerState, n: int, fault: Fault)
    requires n >= 1
    ensures var (after, L', out) := TryFinalize(c, cfg, node, L, n, fault);
            match out
            case NoPrecommitQuorum =>
              after == node && L' == L
              && forall b :: !Quorate(node.precommits, node.height, node.round, PRECOMMIT, n, b)
            case NoHeader =>
              after == node && L' == L && exists b :: Chosen(node, n, b) && b !in node.store.headers
            case NoBody =>
              after == node && L' == L
              && exists b :: Chosen(node, n, b) && b in node.store.headers && b !in node.store.bodies
            case NotCommitted(why) =>
              after == node
              && exists b :: Chosen(node, n, b) && b in node.store.headers && b in node.store.bodies
                             && !why.Committed?
                             && Commit(c, cfg, L, Block(node.store.headers[b], node.store.bodies[b]), fault)
                                == (L', why)
            case Finalized(entry) =>
              exists b :: Chosen(node, n, b) && b in node.store.headers && b in node.store.bodies
                          && Commit(c, cfg, L, Block(node.store.headers[b], node.store.bodies[b]), fault)
                             == (L', Committed(entry))
                          && after == Node(node.store.headers[b].height + 1, 0, None, None, None,
                                           BlockStores.Store(map[], map[]), map[], map[])
  {
    var candidates := VoteSets.QuorumBlocks(node.precommits, node.height, node.round, PRECOMMIT, n);
    FirstOfQuorate(node.precommits, node.height, node.round, PRECOMMIT, n, None, candidates);
    hide FirstQuorate, Quorate, VoteSets.QuorumBlocks, Commit;
    if FirstOf(candidates).Some? {
      assert Chosen(node, n, FirstOf(candidates).value);
    }
    hide Chosen;
  }

  // ---------- propose ----------

  /** The header says who proposes what, where and on top of what. */
  ghost predicate Describes(c: Primitives, cfg: ExecutionConfig, s: Signer, height: int, round: int, entries: Entries,
                            txs: seq<Transaction>, h: BlockHeader) {
    h.chainId == s.chainId && h.height == height && h.round == round && h.proposerPubkey == s.pubkey
    && (height == 1 ==> h.parentHash == seq(32, _ => 0))
    && (height != 1 && height - 1 in entries ==> h.parentHash == entries[height - 1].blockHash)
    && RootIs(c, txs, h.txRoot)
    && (var out := Execute(c, cfg, txs, ParentState(entries, height), ParentNonces(entries, height));
        out.Success? && StateHash(c, out.state) == Some(h.stateHash))
  }

  /** It carries the proposer's signature over its unsigned bytes. */
  ghost predicate SignedBy(s: Signer, h: BlockHeader) {
    Blocks.UnsignedBytes(h).Some? && h.signature == s.sign(Blocks.UnsignedBytes(h).value)
  }

  lemma ZeroHash()
    ensures GENESIS_PARENT == seq(32, _ => 0)
  {
  }

  /** The header that the code builds before it signs. */
  ghost function Draft(c: Primitives, cfg: ExecutionConfig, s: Signer, height: int, round: int, entries: Entries,
                       txs: seq<Transaction>): Option<BlockHeader>
    requires HasParent(entries, height)
  {
    var out := Execute(c, cfg, txs, ParentState(entries, height), ParentNonces(entries, height));
    if out.Success? && HasRoot(c, txs) && StateHash(c, out.state).Some? then
      Some(BlockHeader(s.chainId, height, round, ParentHash(entries, height), TxRoot(c, TxIds(c, txs).value).value,
                       StateHash(c, out.state).value, s.pubkey, []))
    else None
  }

  lemma DraftDescribes(c: Primitives, cfg: ExecutionConfig, s: Signer, height: int, round: int, entries: Entries,
                       txs: seq<Transaction>, h: BlockHeader)
    requires height > 0 && HasParent(entries, height)
    ensures Describes(c, cfg, s, height, round, entries, txs, h) <==>
            Draft(c, cfg, s, height, round, entries, txs) == Some(h.(signature := []))
  {
    ZeroHash();
    hide GENESIS_PARENT, ParentState, ParentNonces, Execute, TxIds, TxRoot, StateHash;
  }

  lemma ProposesTheDraft(c: Primitives, cfg: ExecutionConfig, s: Signer, validators: seq<Bytes>, height: int,
                         round: int, entries: Entries, txs: seq<Transaction>, h: BlockHeader)
    requires validators != [] && height > 0 && round >= 0
    requires validators[(height + round) % |validators|] == s.pubkey && HasParent(entries, height)
    ensures Propose(c, cfg, s, validators, height, round, entries, txs) == Proposed(h) <==>
            var draft := Draft(c, cfg, s, height, round, entries, txs);
            draft.Some? && SignedHeader(s, draft.value) == Some(h)
  {
    assert ParentOf(entries, height) == Some((ParentState(entries, height), ParentNonces(entries, height)));
    hide ParentOf, ParentState, ParentNonces, ParentHash, Execute, TxIds, TxRoot, StateHash, SignedHeader;
  }

  /** On its turn, with the parent stored, a validator proposes h exactly when h describes the proposal, signed. */
  lemma ProposalIsDescribed(c: Primitives, cfg: ExecutionConfig, s: Signer, validators: seq<Bytes>, height: int,
                            round: int, entries: Entries, txs: seq<Transaction>, h: BlockHeader)
    requires validators != [] && height > 0 && round >= 0
    requires validators[(height + round) % |validators|] == s.pubkey && HasParent(entries, height)
    ensures Propose(c, cfg, s, validators, height, round, entries, txs) == Proposed(h) <==>
            Describes(c, cfg, s, height, round, entries, txs, h) && SignedBy(s, h)
  {
    ProposesTheDraft(c, cfg, s, validators, height, round, entries, txs, h);
    DraftDescribes(c, cfg, s, height, round, entries, txs, h);
    Blocks.UnsignedOmitsSignature(h, []);
    var draft := Draft(c, cfg, s, height, round, entries, txs);
    DraftIsUnsigned(c, cfg, s, height, round, entries, txs);
    hide Draft, Propose, Describes, Blocks.UnsignedBytes, SignedHeader;
    if draft.Some? {
      SignedHeaderFields(s, draft.value);
    }
  }

  lemma DraftIsUnsigned(c: Primitives, cfg: ExecutionConfig, s: Signer, height: int, round: int, entries: Entries,
                        txs: seq<Transaction>)
    requires HasParent(entries, height)
    ensures var draft := Draft(c, cfg, s, height, round, entries, txs);
            draft.Some? ==> draft.value.signature == []
  {
    hide Execute, TxIds, TxRoot, StateHash;
  }

  /** A header is proposed exactly on the validator's turn, with the parent stored, when it describes the proposal and
      is signed. The refusals are another validator's turn, a parent that is not stored, and transactions that do not
      execute; the only other outcome is the exception, and then no header describes the proposal. */
  lemma ProposesExactlyWhen(c: Primitives, cfg: ExecutionConfig, s: Signer, validators: seq<Bytes>, height: int,
                            round: int, entries: Entries, txs: seq<Transaction>)
    requires validators != [] && height > 0 && round >= 0
    ensures var out := Propose(c, cfg, s, validators, height, round, entries, txs);
            var turn := validators[(height + round) % |validators|] == s.pubkey;
            (out.NotProposer? <==> !turn)
            && (out.ParentMissing? <==> turn && !HasParent(entries, height))
            && (out.ExecutionFailed? ==> !AllAdmissible(c, cfg, txs, ParentNonces(entries, height)))
            && (out.Proposed? ==> AllAdmissible(c, cfg, txs, ParentNonces(entries, height)))
            && (forall h :: out == Proposed(h) <==>
                  turn && HasParent(entries, height) && Describes(c, cfg, s, height, round, entries, txs, h)
                  && SignedBy(s, h))
  {
    var state, nonces := ParentState(entries, height), ParentNonces(entries, height);
    ExecutesExactlyWhen(c, cfg, txs, state, nonces);
    assert HasParent(entries, height) ==> ParentOf(entries, height) == Some((state, nonces));
    hide Execute, AllAdmissible, Explains, TxIds, TxRoot, StateHash, Blocks.UnsignedBytes, SignedHeader, Describes,
         SignedBy;
    if validators[(height + round) % |validators|] == s.pubkey && HasParent(entries, height) {
      forall h ensures Propose(c, cfg, s, validators, height, round, entries, txs) == Proposed(h) <==>
                       Describes(c, cfg, s, height, round, entries, txs, h) && SignedBy(s, h)
      {
        ProposalIsDescribed(c, cfg, s, validators, height, round, entries, txs, h);
      }
    }
  }

  // ---------- correct validators sign what they send ----------

  lemma SentVoteIsProper(P: Params, p: Bytes, r: Replica, log: seq<Vote>, a: Action)
    requires Agreement.Count(P) >= 1 && Act(P, p, r, log, a).Some? && Act(P, p, r, log, a).value.1.Some?
    ensures ProperlySigned(SignerOf(P, p), Act(P, p, r, log, a).value.1.value)
  {
    var n := Agreement.Count(P);
    match a {
      case Prevote(proposed) =>
        PrevotesExactlyWhen(r.node, SignerOf(P, p), proposed, n);
      case TimeoutPrevote =>
        SignedVoteIsProper(SignerOf(P, p), r.node.height, r.node.round, PREVOTE, None);
      case LockAndPrecommit =>
        PrecommitsExactlyWhen(ApplyLock(r.node, r.node.round, n).0, SignerOf(P, p), n);
      case _ =>
    }
    hide MakePrevote, MakePrecommit, ApplyLock, AfterFinalize, SignedVote, ProperlySigned, FirstQuorate, Quorate;
  }

  /** In every run, every vote of a correct validator in the log is on the chain and carries its signature. */
  lemma {:induction false} CorrectVotesAreSigned(P: Params, s: System, steps: seq<Step>, v: Vote)
    requires Agreement.Count(P) >= 1 && Init(P, s) && Reach(P, s, steps).Some?
    requires v in Reach(P, s, steps).value.log && P.committee.Honest(v.validatorPubkey)
    ensures ProperlySigned(SignerOf(P, v.validatorPubkey), v)
    decreases |steps|
  {
    hide Act, ProperlySigned;
    if steps != [] {
      var n := |steps| - 1;
      var t := Reach(P, s, steps[..n]).value;
      if v in t.log {
        CorrectVotesAreSigned(P, s, steps[..n], v);
      } else {
        var step := steps[n];
        assert step.Correct?;
        SentVoteIsProper(P, step.p, t.replicas[step.p], t.log, step.action);
        ActVoter(P, step.p, t.replicas[step.p], t.log, step.action);
      }
    }
  }

  lemma ActVoter(P: Params, p: Bytes, r: Replica, log: seq<Vote>, a: Action)
    requires Agreement.Count(P) >= 1 && Act(P, p, r, log, a).Some? && Act(P, p, r, log, a).value.1.Some?
    ensures Act(P, p, r, log, a).value.1.value.validatorPubkey == p
  {
    SentVoteIsProper(P, p, r, log, a);
    hide Act;
  }
}
