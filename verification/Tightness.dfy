/** The hypothesis on byzantine validators is exact: with more of them, and at least two correct validators, there is a
    run in which correct validators do only what the code does and two of them finalize different blocks. */
module Tightness {
  import opened Wrappers
  import opened Ordering
  import opened Crypto
  import opened Blocks
  import opened States
  import opened Bodies
  import opened Ledgers
  import opened Chain
  import opened Votes
  import opened VoteSets
  import opened VoteCounting
  import opened BlockStores
  import opened Consensus
  import opened Agreement
  import opened Runs
  import opened SoloRounds

  /** The block hashes to b and is a valid first block of the chain. */
  ghost predicate Committable(P: Params, block: Block, b: Bytes) {
    BlockHash(P.c, block.header) == Some(b) && block.header.height == 1 && block.header.chainId == P.chainId
    && ValidateBody(P.c, P.cfg, block.header, block.body, map[], map[]).Valid?
  }

  lemma CommittableIsHashed(P: Params, block: Block, b: Bytes)
    requires Committable(P, block, b)
    ensures BlockHash(P.c, block.header) == Some(b)
  {
    hide ValidateBody;
  }

  // ---------- one validator, step by step ----------

  /** A validator that has done nothing yet. */
  ghost predicate AtStart(P: Params, r: Replica) {
    r == Replica(Node(1, 0, None, None, None, Store(map[], map[]), map[], map[]), {},
                 LedgerState(P.chainId, map[], r.ledger.stored, None))
  }

  function Informed(r: Replica, block: Block, b: Bytes): Replica {
    r.(node := r.node.(store := Store(map[b := block.header], map[])))
  }

  ghost function Prevoted(P: Params, p: Bytes, r: Replica, block: Block, b: Bytes): Replica {
    var v := VoteFor(P, p, 1, 0, PREVOTE, b);
    Replica(Node(1, 0, None, None, None, Store(map[b := block.header], map[]), map[KeyOf(v) := v], map[]),
            {Slot(1, 0, PREVOTE)}, r.ledger)
  }

  ghost function Precommitted(P: Params, p: Bytes, r: Replica, block: Block, b: Bytes, prevotes: Stored): Replica {
    var v := VoteFor(P, p, 1, 0, PRECOMMIT, b);
    Replica(Node(1, 0, Some(b), Some(0), Some(b), Store(map[b := block.header], map[]), prevotes, map[KeyOf(v) := v]),
            {Slot(1, 0, PREVOTE), Slot(1, 0, PRECOMMIT)}, r.ledger)
  }

  function Complete(r: Replica, block: Block, b: Bytes): Replica {
    r.(node := r.node.(store := Store(map[b := block.header], map[b := block.body])))
  }

  lemma FirstKept(v: Vote)
    ensures Keep(map[], v) == map[KeyOf(v) := v]
  {
    assert map[][KeyOf(v) := v] == map[KeyOf(v) := v];
  }

  lemma StepHeader(P: Params, p: Bytes, r: Replica, block: Block, b: Bytes)
    requires Count(P) >= 1 && AtStart(P, r) && BlockHash(P.c, block.header) == Some(b)
    ensures Does(P, p, r, GetHeader(block.header)) == Some((Informed(r, block, b), None))
  {
    hide BlockHash;
    assert map[][b := block.header] == map[b := block.header];
  }

  lemma StepPrevote(P: Params, p: Bytes, r: Replica, block: Block, b: Bytes)
    requires Count(P) >= 1 && AtStart(P, r) && BlockHash(P.c, block.header) == Some(b)
    ensures Does(P, p, Informed(r, block, b), Prevote(b))
            == Some((Prevoted(P, p, r, block, b), Some(VoteFor(P, p, 1, 0, PREVOTE, b))))
  {
    assert |b| == HASH_SIZE;
    SignedVoteFields(SignerOf(P, p), 1, 0, PREVOTE, Some(b));
    var v := VoteFor(P, p, 1, 0, PREVOTE, b);
    hide BlockHash, SignedVote;
    FirstKept(v);
    assert MakePrevote(Informed(r, block, b).node, SignerOf(P, p), b, Count(P))
           == Some((Prevoted(P, p, r, block, b).node, v));
    assert {} + {SlotOf(v)} == {Slot(1, 0, PREVOTE)};
    hide MakePrevote;
  }

  lemma StepPrecommit(P: Params, p: Bytes, r: Replica, block: Block, b: Bytes, members: set<Bytes>, prevotes: Stored)
    requires Count(P) >= 1 && |members| >= Threshold(Count(P)) && Unanimous(prevotes, members, 1, 0, PREVOTE, b)
    ensures var before := Prevoted(P, p, r, block, b);
            Does(P, p, before.(node := before.node.(prevotes := prevotes)), LockAndPrecommit)
            == Some((Precommitted(P, p, r, block, b, prevotes), Some(VoteFor(P, p, 1, 0, PRECOMMIT, b))))
  {
    var before := Prevoted(P, p, r, block, b);
    var heard := before.(node := before.node.(prevotes := prevotes));
    UnanimousQuorum(prevotes, members, 1, 0, PREVOTE, b, Count(P));
    SignedVoteFields(SignerOf(P, p), 1, 0, PRECOMMIT, Some(b));
    assert PREVOTE != PRECOMMIT by {
      assert |PREVOTE| != |PRECOMMIT|;
    }
    hide QuorumBlocks, HasQuorum, SignedVote, Unanimous;
    assert Lockable(heard.node, 0, Count(P)) == {b};
    FirstOfIs({b}, b);
    var locked := ApplyLock(heard.node, 0, Count(P)).0;
    assert PrecommitTarget(locked, Count(P)) == Some(b);
    hide ApplyLock, PrecommitTarget;
    var v := VoteFor(P, p, 1, 0, PRECOMMIT, b);
    FirstKept(v);
    assert MakePrecommit(locked, SignerOf(P, p), Count(P)) == (Precommitted(P, p, r, block, b, prevotes).node, v);
    assert {Slot(1, 0, PREVOTE)} + {SlotOf(v)} == {Slot(1, 0, PREVOTE), Slot(1, 0, PRECOMMIT)};
    hide MakePrecommit;
  }

  lemma StepBody(P: Params, p: Bytes, r: Replica, block: Block, b: Bytes)
    requires Count(P) >= 1 && r.node.store == Store(map[b := block.header], map[])
    ensures Does(P, p, r, GetBody(b, block.body)) == Some((Complete(r, block, b), None))
  {
    assert map[][b := block.body] == map[b := block.body];
  }

  lemma FirstCommit(P: Params, L: LedgerState, block: Block, b: Bytes)
    requires Committable(P, block, b) && L == LedgerState(P.chainId, map[], L.stored, None)
    ensures var (L', out) := Commit(P.c, P.cfg, L, block, NoFault);
            out.Committed? && 1 in L'.entries && L'.entries[1].blockHash == b
  {
    hide BlockHash, ValidateBody, SnapshotOf;
    assert FinalizedHeight(L.entries) == 0;
  }

  /** The ledger holds the block with hash b at height 1. */
  ghost predicate HoldsFirst(r: Replica, b: Bytes) {
    1 in r.ledger.entries && r.ledger.entries[1].blockHash == b
  }

  lemma FinalizeCommits(P: Params, node: Node, L: LedgerState, block: Block, b: Bytes)
    requires Count(P) >= 1
    requires FirstOf(QuorumBlocks(node.precommits, node.height, node.round, PRECOMMIT, Count(P))) == Some(b)
    requires node.store == Store(map[b := block.header], map[b := block.body])
    ensures TryFinalize(P.c, P.cfg, node, L, Count(P), NoFault).1 == Commit(P.c, P.cfg, L, block, NoFault).0
  {
    hide QuorumBlocks, Commit;
    assert Block(block.header, block.body) == block;
  }

  lemma DoesFinalize(P: Params, p: Bytes, r: Replica)
    requires Count(P) >= 1
    ensures Does(P, p, r, FinalizeStep(false)).Some?
    ensures Does(P, p, r, FinalizeStep(false)).value.0.ledger
            == TryFinalize(P.c, P.cfg, r.node, r.ledger, Count(P), NoFault).1
  {
    hide TryFinalize;
  }

  lemma HoldsCommitted(r: Replica, b: Bytes)
    requires 1 in r.ledger.entries && r.ledger.entries[1].blockHash == b
    ensures HoldsFirst(r, b)
  {
  }

  lemma StepFinalize(P: Params, p: Bytes, r: Replica, block: Block, b: Bytes, members: set<Bytes>)
    requires Count(P) >= 1 && |members| >= Threshold(Count(P)) && Committable(P, block, b)
    requires r.node.height == 1 && r.node.round == 0 && Unanimous(r.node.precommits, members, 1, 0, PRECOMMIT, b)
    requires r.node.store == Store(map[b := block.header], map[b := block.body])
    requires r.ledger == LedgerState(P.chainId, map[], r.ledger.stored, None)
    ensures Does(P, p, r, FinalizeStep(false)).Some? && HoldsFirst(Does(P, p, r, FinalizeStep(false)).value.0, b)
  {
    UnanimousQuorum(r.node.precommits, members, 1, 0, PRECOMMIT, b, Count(P));
    FirstOfIs({b}, b);
    FirstCommit(P, r.ledger, block, b);
    FinalizeCommits(P, r.node, r.ledger, block, b);
    DoesFinalize(P, p, r);
    hide *;
    HoldsCommitted(Does(P, p, r, FinalizeStep(false)).value.0, b);
  }

  // ---------- one side of the validators commits a block ----------

  ghost predicate Side(P: Params, side: set<Bytes>) {
    Count(P) >= 1 && P.committee.byzantine <= side <= P.committee.validators && |side| >= Threshold(Count(P))
  }

  function CorrectOf(P: Params, side: set<Bytes>): set<Bytes> {
    side - P.committee.byzantine
  }

  /** Every vote of the side for b in the phase is in the log. */
  ghost predicate Signed(P: Params, log: seq<Vote>, side: set<Bytes>, phase: Bytes, b: Bytes) {
    forall m :: m in side ==> VoteFor(P, m, 1, 0, phase, b) in log
  }

  /** When the correct members have signed, the byzantine ones add their votes. */
  lemma ByzantineSign(P: Params, s: System, side: set<Bytes>, phase: Bytes, b: Bytes) returns (t: System)
    requires Side(P, side) && forall m :: m in CorrectOf(P, side) ==> VoteFor(P, m, 1, 0, phase, b) in s.log
    ensures Leads(P, s, t) && t.replicas == s.replicas && s.log <= t.log && Signed(P, t.log, side, phase, b)
  {
    var Z := P.committee.byzantine;
    var votes := Ballots(P, Z, 1, 0, phase, b);
    forall v | v in votes ensures v.validatorPubkey in Z {
      BallotsAre(P, Z, 1, 0, phase, b, v);
    }
    AllSigned(P, s, votes);
    t := s.(log := s.log + votes);
    forall m | m in side ensures VoteFor(P, m, 1, 0, phase, b) in t.log {
      if m in Z {
        SignedVoteFields(SignerOf(P, m), 1, 0, phase, Some(b));
        BallotsAre(P, Z, 1, 0, phase, b, VoteFor(P, m, 1, 0, phase, b));
      }
    }
  }

  lemma BallotsSigned(P: Params, log: seq<Vote>, side: set<Bytes>, phase: Bytes, b: Bytes, r: Replica, precommits: bool)
    requires Signed(P, log, side, phase, b) && b in r.node.store.headers
    ensures Hearable(r, log, precommits, Ballots(P, side, 1, 0, phase, b))
  {
    forall v | v in Ballots(P, side, 1, 0, phase, b) ensures v in log && v.block == Some(b) {
      BallotsAre(P, side, 1, 0, phase, b, v);
      SignedVoteFields(SignerOf(P, v.validatorPubkey), 1, 0, phase, Some(b));
    }
  }

  /** The correct members learn the block and prevote it; with the byzantine prevotes the whole side has. */
  lemma SidePrevotes(P: Params, s: System, side: set<Bytes>, block: Block, b: Bytes) returns (t: System)
    requires Side(P, side) && BlockHash(P.c, block.header) == Some(b) && CorrectOf(P, side) <= s.replicas.Keys
    requires forall p :: p in CorrectOf(P, side) ==> AtStart(P, s.replicas[p])
    ensures Leads(P, s, t) && Apart(s, t, CorrectOf(P, side)) && Signed(P, t.log, side, PREVOTE, b)
    ensures forall p :: p in CorrectOf(P, side) ==> t.replicas[p] == Prevoted(P, p, s.replicas[p], block, b)
  {
    var G := CorrectOf(P, side);
    hide BlockHash, AtStart, Does, Leads, Informed, Prevoted, VoteFor, Signed;
    forall p | p in G
      ensures Does(P, p, s.replicas[p], GetHeader(block.header)) == Some((Informed(s.replicas[p], block, b), None))
    {
      StepHeader(P, p, s.replicas[p], block, b);
    }
    var t1 := EachActs(P, s, G, GetHeader(block.header));
    forall p | p in G
      ensures Does(P, p, t1.replicas[p], Prevote(b))
              == Some((Prevoted(P, p, s.replicas[p], block, b), Some(VoteFor(P, p, 1, 0, PREVOTE, b))))
    {
      assert DidStep(P, p, s.replicas[p], GetHeader(block.header), t1.replicas[p], t1.log);
      StepPrevote(P, p, s.replicas[p], block, b);
    }
    var t2 := EachActs(P, t1, G, Prevote(b));
    forall p | p in G
      ensures t2.replicas[p] == Prevoted(P, p, s.replicas[p], block, b) && VoteFor(P, p, 1, 0, PREVOTE, b) in t2.log
    {
      assert DidStep(P, p, t1.replicas[p], Prevote(b), t2.replicas[p], t2.log);
    }
    t := ByzantineSign(P, t2, side, PREVOTE, b);
    LeadsThen(P, s, t1, t2);
    LeadsThen(P, s, t2, t);
  }

  ghost function Prevotes(P: Params, side: set<Bytes>, b: Bytes): seq<Vote> {
    Ballots(P, side, 1, 0, PREVOTE, b)
  }

  ghost function Precommits(P: Params, side: set<Bytes>, b: Bytes): seq<Vote> {
    Ballots(P, side, 1, 0, PRECOMMIT, b)
  }

  /** The validator having heard the prevotes of the side. */
  ghost function Convinced(P: Params, p: Bytes, r: Replica, block: Block, b: Bytes, side: set<Bytes>): Replica {
    Hears(Prevoted(P, p, r, block, b), false, Prevotes(P, side, b))
  }

  /** … having locked and precommitted b. */
  ghost function Locked(P: Params, p: Bytes, r: Replica, block: Block, b: Bytes, side: set<Bytes>): Replica {
    Precommitted(P, p, r, block, b, Convinced(P, p, r, block, b, side).node.prevotes)
  }

  /** … and having received the body and the precommits of the side. */
  ghost function Equipped(P: Params, p: Bytes, r: Replica, block: Block, b: Bytes, side: set<Bytes>): Replica {
    Hears(Complete(Locked(P, p, r, block, b, side), block, b), true, Precommits(P, side, b))
  }

  lemma OwnVoteOnly(P: Params, p: Bytes, phase: Bytes, b: Bytes)
    ensures var v := VoteFor(P, p, 1, 0, phase, b);
            v.block == Some(b) && WellKeyed(map[KeyOf(v) := v])
  {
    SignedVoteFields(SignerOf(P, p), 1, 0, phase, Some(b));
  }

  lemma ConvincedLocks(P: Params, p: Bytes, r: Replica, block: Block, b: Bytes, side: set<Bytes>)
    requires Side(P, side)
    ensures Does(P, p, Convinced(P, p, r, block, b, side), LockAndPrecommit)
            == Some((Locked(P, p, r, block, b, side), Some(VoteFor(P, p, 1, 0, PRECOMMIT, b))))
  {
    var before := Prevoted(P, p, r, block, b);
    OwnVoteOnly(P, p, PREVOTE, b);
    HeardEveryone(P, before.node.prevotes, side, 1, 0, PREVOTE, b);
    hide Ballots, AddAll, VoteFor, Does, Unanimous;
    StepPrecommit(P, p, r, block, b, side, Convinced(P, p, r, block, b, side).node.prevotes);
  }

  lemma EquippedKnows(P: Params, p: Bytes, r: Replica, block: Block, b: Bytes, side: set<Bytes>)
    requires AtStart(P, r)
    ensures var e := Equipped(P, p, r, block, b, side);
            e.node.height == 1 && e.node.round == 0 && e.ledger == LedgerState(P.chainId, map[], e.ledger.stored, None)
            && e.node.store == Store(map[b := block.header], map[b := block.body])
            && Unanimous(e.node.precommits, side, 1, 0, PRECOMMIT, b)
  {
    OwnVoteOnly(P, p, PRECOMMIT, b);
    var v := VoteFor(P, p, 1, 0, PRECOMMIT, b);
    HeardEveryone(P, map[KeyOf(v) := v], side, 1, 0, PRECOMMIT, b);
    hide Ballots, AddAll, VoteFor, Unanimous, Convinced, KeyOf;
  }

  lemma EquippedFinalizes(P: Params, p: Bytes, r: Replica, block: Block, b: Bytes, side: set<Bytes>)
    requires Side(P, side) && Committable(P, block, b) && AtStart(P, r)
    ensures var before := Equipped(P, p, r, block, b, side);
            Does(P, p, before, FinalizeStep(false)).Some?
            && HoldsFirst(Does(P, p, before, FinalizeStep(false)).value.0, b)
  {
    EquippedKnows(P, p, r, block, b, side);
    hide Does, Unanimous, Committable, HoldsFirst, Equipped;
    StepFinalize(P, p, Equipped(P, p, r, block, b, side), block, b, side);
  }

  lemma LockedKnows(P: Params, p: Bytes, r: Replica, block: Block, b: Bytes, side: set<Bytes>)
    ensures Locked(P, p, r, block, b, side).node.store == Store(map[b := block.header], map[])
    ensures b in Complete(Locked(P, p, r, block, b, side), block, b).node.store.headers
    ensures b in Prevoted(P, p, r, block, b).node.store.headers
  {
    hide Convinced;
  }

  /** Every correct member hears the side's prevotes, locks b and precommits it; so do the byzantine ones. */
  lemma SidePrecommits(P: Params, s: System, start: System, side: set<Bytes>, block: Block, b: Bytes)
    returns (t: System)
    requires Side(P, side) && CorrectOf(P, side) <= s.replicas.Keys && CorrectOf(P, side) <= start.replicas.Keys
    requires forall p :: p in CorrectOf(P, side) ==> s.replicas[p] == Prevoted(P, p, start.replicas[p], block, b)
    requires Signed(P, s.log, side, PREVOTE, b)
    ensures Leads(P, s, t) && Apart(s, t, CorrectOf(P, side)) && Signed(P, t.log, side, PRECOMMIT, b)
    ensures forall p :: p in CorrectOf(P, side) ==> t.replicas[p] == Locked(P, p, start.replicas[p], block, b, side)
  {
    var G := CorrectOf(P, side);
    hide Hearable, Does, Leads, VoteFor, Signed, Prevoted, Locked, Hears;
    forall p | p in G ensures Hearable(s.replicas[p], s.log, false, Prevotes(P, side, b)) {
      LockedKnows(P, p, start.replicas[p], block, b, side);
      BallotsSigned(P, s.log, side, PREVOTE, b, s.replicas[p], false);
    }
    var t1 := EachHears(P, s, G, false, Prevotes(P, side, b));
    forall p | p in G ensures t1.replicas[p] == Convinced(P, p, start.replicas[p], block, b, side) {
    }
    hide Convinced, Prevotes;
    forall p | p in G
      ensures Does(P, p, t1.replicas[p], LockAndPrecommit)
              == Some((Locked(P, p, start.replicas[p], block, b, side), Some(VoteFor(P, p, 1, 0, PRECOMMIT, b))))
    {
      ConvincedLocks(P, p, start.replicas[p], block, b, side);
    }
    var t2 := EachActs(P, t1, G, LockAndPrecommit);
    forall p | p in G
      ensures t2.replicas[p] == Locked(P, p, start.replicas[p], block, b, side)
      ensures VoteFor(P, p, 1, 0, PRECOMMIT, b) in t2.log
    {
      assert DidStep(P, p, t1.replicas[p], LockAndPrecommit, t2.replicas[p], t2.log);
    }
    t := ByzantineSign(P, t2, side, PRECOMMIT, b);
    LeadsThen(P, s, t1, t2);
    LeadsThen(P, s, t2, t);
  }

  /** Every correct member gets the body, hears the precommits and finalizes. */
  lemma SideFinalizes(P: Params, s: System, start: System, side: set<Bytes>, block: Block, b: Bytes) returns (t: System)
    requires Side(P, side) && Committable(P, block, b)
    requires CorrectOf(P, side) <= s.replicas.Keys && CorrectOf(P, side) <= start.replicas.Keys
    requires forall p :: p in CorrectOf(P, side) ==>
               AtStart(P, start.replicas[p]) && s.replicas[p] == Locked(P, p, start.replicas[p], block, b, side)
    requires Signed(P, s.log, side, PRECOMMIT, b)
    ensures Leads(P, s, t) && Apart(s, t, CorrectOf(P, side))
    ensures forall p :: p in CorrectOf(P, side) ==> HoldsFirst(t.replicas[p], b)
  {
    var G := CorrectOf(P, side);
    hide Hearable, Does, Leads, VoteFor, Committable, AtStart, Locked, Complete, HoldsFirst, Hears;
    forall p | p in G
      ensures Does(P, p, s.replicas[p], GetBody(b, block.body)) == Some((Complete(s.replicas[p], block, b), None))
    {
      LockedKnows(P, p, start.replicas[p], block, b, side);
      StepBody(P, p, s.replicas[p], block, b);
    }
    var t1 := EachActs(P, s, G, GetBody(b, block.body));
    forall p | p in G
      ensures t1.replicas[p] == Complete(Locked(P, p, start.replicas[p], block, b, side), block, b)
      ensures Hearable(t1.replicas[p], t1.log, true, Precommits(P, side, b))
    {
      assert DidStep(P, p, s.replicas[p], GetBody(b, block.body), t1.replicas[p], t1.log);
      LockedKnows(P, p, start.replicas[p], block, b, side);
      BallotsSigned(P, t1.log, side, PRECOMMIT, b, t1.replicas[p], true);
    }
    hide Signed;
    var t2 := EachHears(P, t1, G, true, Precommits(P, side, b));
    forall p | p in G ensures t2.replicas[p] == Equipped(P, p, start.replicas[p], block, b, side) {
    }
    hide Equipped, Precommits;
    forall p | p in G
      ensures Does(P, p, t2.replicas[p], FinalizeStep(false)).Some?
      ensures HoldsFirst(Does(P, p, t2.replicas[p], FinalizeStep(false)).value.0, b)
    {
      EquippedFinalizes(P, p, start.replicas[p], block, b, side);
    }
    t := EachActs(P, t2, G, FinalizeStep(false));
    forall p | p in G ensures HoldsFirst(t.replicas[p], b) {
      assert DidStep(P, p, t2.replicas[p], FinalizeStep(false), t.replicas[p], t.log);
    }
    LeadsThen(P, s, t1, t2);
    LeadsThen(P, s, t2, t);
  }

  /** All correct members of the side finalize the block, and nobody else moves. */
  lemma SideCommits(P: Params, s: System, side: set<Bytes>, block: Block, b: Bytes) returns (t: System)
    requires Side(P, side) && Committable(P, block, b) && CorrectOf(P, side) <= s.replicas.Keys
    requires forall p :: p in CorrectOf(P, side) ==> AtStart(P, s.replicas[p])
    ensures Leads(P, s, t) && Apart(s, t, CorrectOf(P, side))
    ensures forall p :: p in CorrectOf(P, side) ==> HoldsFirst(t.replicas[p], b)
  {
    hide Leads, Signed, Committable, AtStart, Prevoted, Locked, HoldsFirst, BlockHash;
    CommittableIsHashed(P, block, b);
    var t1 := SidePrevotes(P, s, side, block, b);
    var t2 := SidePrecommits(P, t1, s, side, block, b);
    t := SideFinalizes(P, t2, s, side, block, b);
    LeadsThen(P, s, t1, t2);
    LeadsThen(P, s, t2, t);
  }

  // ---------- two sides ----------

  lemma {:induction false} Part(s: set<Bytes>, size: nat) returns (part: set<Bytes>)
    requires size <= |s|
    ensures part <= s && |part| == size
    decreases size
  {
    if size == 0 {
      part := {};
    } else {
      var x :| x in s;
      var rest := Part(s - {x}, size - 1);
      part := rest + {x};
    }
  }

  lemma Halve(byzantine: set<Bytes>, honest: set<Bytes>, part: set<Bytes>)
    requires byzantine !! honest && part <= honest
    ensures |byzantine + part| == |byzantine| + |part| && |honest - part| == |honest| - |part|
    ensures (byzantine + part) - byzantine == part
  {
    assert honest == (honest - part) + part;
  }

  /** Splits the correct validators into two nonempty parts, each completing the byzantine ones to a quorum. */
  lemma Split(P: Params) returns (one: set<Bytes>, two: set<Bytes>)
    requires Count(P) >= 1 && P.committee.byzantine <= P.committee.validators && !P.committee.Valid()
    requires |CorrectOf(P, P.committee.validators)| >= 2
    ensures Side(P, one) && Side(P, two) && CorrectOf(P, one) !! CorrectOf(P, two)
    ensures CorrectOf(P, one) != {} && CorrectOf(P, two) != {}
  {
    var byzantine, honest := P.committee.byzantine, CorrectOf(P, P.committee.validators);
    var n, t, f := Count(P), Threshold(Count(P)), |byzantine|;
    assert honest + byzantine == P.committee.validators;
    var part := Part(honest, if t - f > 1 then t - f else 1);
    Halve(byzantine, honest, part);
    Halve(byzantine, honest, honest - part);
    one, two := byzantine + part, byzantine + (honest - part);
  }

  /** A run in which a correct validator finalizes x at height 1 and another one finalizes y. */
  lemma TwoBlocksCommitted(P: Params, s: System, x: Block, b: Bytes, y: Block, b': Bytes)
    returns (steps: seq<Step>, p: Bytes, q: Bytes)
    requires Count(P) >= 1 && P.committee.byzantine <= P.committee.validators && !P.committee.Valid()
    requires |CorrectOf(P, P.committee.validators)| >= 2
    requires Init(P, s) && Committable(P, x, b) && Committable(P, y, b')
    ensures Reach(P, s, steps).Some? && p in Reach(P, s, steps).value.replicas && q in Reach(P, s, steps).value.replicas
    ensures HoldsFirst(Reach(P, s, steps).value.replicas[p], b) && HoldsFirst(Reach(P, s, steps).value.replicas[q], b')
  {
    var one, two := Split(P);
    hide Committable, HoldsFirst, Reach;
    var t := SideCommits(P, s, one, x, b);
    forall g | g in CorrectOf(P, two) ensures g in t.replicas && t.replicas[g] == s.replicas[g] {
    }
    var u := SideCommits(P, t, two, y, b');
    p :| p in CorrectOf(P, one);
    q :| q in CorrectOf(P, two);
    LeadsThen(P, s, t, u);
    steps :| Reach(P, s, steps) == Some(u);
  }

  // ---------- ledgers never change an entry ----------

  ghost predicate Grows(a: Entries, b: Entries) {
    forall h :: h in a ==> h in b && b[h] == a[h]
  }

  ghost predicate LedgersGrow(s: System, t: System) {
    s.replicas.Keys == t.replicas.Keys
    && forall p :: p in s.replicas ==> Grows(s.replicas[p].ledger.entries, t.replicas[p].ledger.entries)
  }

  lemma CommitGrows(P: Params, L: LedgerState, block: Block, fault: Fault)
    ensures Grows(L.entries, Commit(P.c, P.cfg, L, block, fault).0.entries)
  {
    hide BlockHash, ValidateBody, SnapshotOf, ParentOf;
    assert FinalizedHeight(L.entries) + 1 !in L.entries;
  }

  lemma FinalizeGrows(P: Params, r: Replica, writeFails: bool)
    requires Count(P) >= 1
    ensures Grows(r.ledger.entries, AfterFinalize(P, r, writeFails).ledger.entries)
  {
    var node, fault := r.node, if writeFails then WriteFails else NoFault;
    hide QuorumBlocks, Commit;
    match FirstOf(QuorumBlocks(node.precommits, node.height, node.round, PRECOMMIT, Count(P))) {
      case None =>
      case Some(b) =>
        if b in node.store.headers && b in node.store.bodies {
          CommitGrows(P, r.ledger, Block(node.store.headers[b], node.store.bodies[b]), fault);
        }
    }
  }

  lemma ActGrows(P: Params, p: Bytes, r: Replica, log: seq<Vote>, a: Action)
    requires Count(P) >= 1 && Act(P, p, r, log, a).Some?
    ensures Grows(r.ledger.entries, Act(P, p, r, log, a).value.0.ledger.entries)
  {
    if a.FinalizeStep? {
      FinalizeGrows(P, r, a.writeFails);
    }
    hide MakePrevote, MakePrecommit, ApplyLock, AfterFinalize, RoundChange, SignedVote, PutHeader, PutBody, Keep;
  }

  lemma {:induction false} RunGrows(P: Params, s: System, steps: seq<Step>, i: nat)
    requires Count(P) >= 1 && Reach(P, s, steps).Some? && i <= |steps|
    ensures Reach(P, s, steps[..i]).Some? && LedgersGrow(Reach(P, s, steps[..i]).value, Reach(P, s, steps).value)
    decreases |steps|
  {
    hide Act;
    if i < |steps| {
      var n := |steps| - 1;
      RunGrows(P, s, steps[..n], i);
      assert steps[..n][..i] == steps[..i];
      var before := Reach(P, s, steps[..n]).value;
      if steps[n].Correct? {
        ActGrows(P, steps[n].p, before.replicas[steps[n].p], before.log, steps[n].action);
      }
    } else {
      assert steps[..i] == steps;
    }
  }

  // ---------- exactly when correct validators agree ----------

  /** At two points of a run, two correct validators hold different blocks at a height. */
  ghost predicate Disagree(P: Params, s: System, steps: seq<Step>, i: nat, j: nat, p: Bytes, q: Bytes, h: int)
    requires Count(P) >= 1
  {
    i <= |steps| && j <= |steps| && Reach(P, s, steps[..i]).Some? && Reach(P, s, steps[..j]).Some?
    && var a, b := Reach(P, s, steps[..i]).value, Reach(P, s, steps[..j]).value;
       p in a.replicas && q in b.replicas
       && h in a.replicas[p].ledger.entries && h in b.replicas[q].ledger.entries
       && a.replicas[p].ledger.entries[h].blockHash != b.replicas[q].ledger.entries[h].blockHash
  }

  /** No run of the system ever shows a disagreement. */
  ghost predicate Agrees(P: Params)
    requires Count(P) >= 1
  {
    forall s, steps, i, j, p, q, h ::
      Init(P, s) && Reach(P, s, steps).Some? ==> !Disagree(P, s, steps, i, j, p, q, h)
  }

  lemma OnlyOne(s: set<Bytes>, p: Bytes, q: Bytes)
    requires |s| <= 1 && p in s && q in s
    ensures p == q
  {
    if p != q {
      SubsetSize({p, q}, s);
      assert false;
    }
  }

  /** A single correct validator agrees with itself, whatever the others do: its ledger never changes an entry. */
  lemma AloneAgrees(P: Params, s: System, steps: seq<Step>, i: nat, j: nat, p: Bytes, q: Bytes, h: int)
    requires Count(P) >= 1 && Init(P, s) && Reach(P, s, steps).Some?
    requires |CorrectOf(P, P.committee.validators)| <= 1
    ensures !Disagree(P, s, steps, i, j, p, q, h)
  {
    if Disagree(P, s, steps, i, j, p, q, h) {
      RunGrows(P, s, steps, i);
      RunGrows(P, s, steps, j);
      RunGrows(P, s, steps, 0);
      assert steps[..0] == [];
      hide Reach;
      assert Reach(P, s, []) == Some(s) by {
        ReachNothing(P, s);
      }
      OnlyOne(CorrectOf(P, P.committee.validators), p, q);
      assert false;
    }
  }

  lemma ReachNothing(P: Params, s: System)
    requires Count(P) >= 1
    ensures Reach(P, s, []) == Some(s)
  {
  }

  lemma FreshSystem(P: Params) returns (s: System)
    requires P.committee.byzantine <= P.committee.validators
    ensures Init(P, s)
  {
    var r := Replica(Node(1, 0, None, None, None, Store(map[], map[]), map[], map[]), {},
                     LedgerState(P.chainId, map[], false, None));
    s := System(map p | p in CorrectOf(P, P.committee.validators) :: r, []);
  }

  /** Correct validators agree in every run exactly when fewer validators are byzantine than two quorums share, or
      there is at most one correct validator to speak of. The premise gives them two blocks to disagree about. */
  lemma AgreesExactlyWhen(P: Params, x: Block, b: Bytes, y: Block, b': Bytes)
    requires Count(P) >= 1 && P.committee.byzantine <= P.committee.validators
    requires Committable(P, x, b) && Committable(P, y, b') && b != b'
    ensures Agrees(P) <==> P.committee.Valid() || |CorrectOf(P, P.committee.validators)| <= 1
  {
    hide Committable, Init, Reach, Disagree;
    if P.committee.Valid() || |CorrectOf(P, P.committee.validators)| <= 1 {
      forall s, steps, i, j, p, q, h | Init(P, s) && Reach(P, s, steps).Some?
        ensures !Disagree(P, s, steps, i, j, p, q, h)
      {
        if P.committee.Valid() {
          ValidAgrees(P, s, steps, i, j, p, q, h);
        } else {
          AloneAgrees(P, s, steps, i, j, p, q, h);
        }
      }
    } else {
      var s := FreshSystem(P);
      var steps, p, q := TwoBlocksCommitted(P, s, x, b, y, b');
      EndDisagrees(P, s, steps, p, q, b, b');
      assert !Agrees(P);
    }
  }

  lemma ValidAgrees(P: Params, s: System, steps: seq<Step>, i: nat, j: nat, p: Bytes, q: Bytes, h: int)
    requires P.committee.Valid() && Init(P, s) && Reach(P, s, steps).Some?
    ensures !Disagree(P, s, steps, i, j, p, q, h)
  {
    hide Init, Reach;
    if Disagree(P, s, steps, i, j, p, q, h) {
      AgreementHolds(P, s, steps, i, j, p, q, h);
    }
  }

  lemma EndDisagrees(P: Params, s: System, steps: seq<Step>, p: Bytes, q: Bytes, b: Bytes, b': Bytes)
    requires Count(P) >= 1 && Reach(P, s, steps).Some? && b != b'
    requires p in Reach(P, s, steps).value.replicas && q in Reach(P, s, steps).value.replicas
    requires HoldsFirst(Reach(P, s, steps).value.replicas[p], b) && HoldsFirst(Reach(P, s, steps).value.replicas[q], b')
    ensures Disagree(P, s, steps, |steps|, |steps|, p, q, 1)
  {
    hide Reach;
    assert steps[..|steps|] == steps;
  }

  // ---------- the premise can be met ----------

  /** The empty block of a round; what it commits to is hashed without fail. */
  ghost function EmptyBlock(P: Params, round: int): Block {
    NothingToHash(P.c);
    Block(BlockHeader(P.chainId, 1, round, [], TxRoot(P.c, []).value, StateHash(P.c, map[]).value, [], []), [])
  }

  lemma EmptyBlockIsCommittable(P: Params, round: int) returns (b: Bytes)
    requires |P.chainId| < Encoding.UINT32_LIMIT && 0 <= round < Encoding.UINT64_LIMIT
    ensures Committable(P, EmptyBlock(P, round), b)
  {
    NothingToHash(P.c);
    var header := EmptyBlock(P, round).header;
    assert Blocks.SignedBytes(header).Some? by {
      hide Encoding.EncodeBytes, Encoding.EncodeUint64, TxRoot, StateHash;
    }
    hide TxRoot, StateHash, TxIds, Blocks.SignedBytes;
    assert Executor.Execute(P.c, P.cfg, [], map[], map[]) == Executor.Success(map[], map[], []);
    hide Executor.Execute;
    b := BlockHash(P.c, header).value;
  }

  /** For instance the empty blocks of rounds 0 and 1, when the hash tells their two headers apart. */
  lemma AgreesExactlyWhenHashed(P: Params, inputs: set<Bytes>)
    requires Count(P) >= 1 && P.committee.byzantine <= P.committee.validators && |P.chainId| < Encoding.UINT32_LIMIT
    requires CollisionFree(P.c, inputs)
    requires forall round :: 0 <= round <= 1 ==>
               var bytes := Blocks.SignedBytes(EmptyBlock(P, round).header); bytes.Some? ==> bytes.value in inputs
    ensures Agrees(P) <==> P.committee.Valid() || |CorrectOf(P, P.committee.validators)| <= 1
  {
    var b := EmptyBlockIsCommittable(P, 0);
    var b' := EmptyBlockIsCommittable(P, 1);
    var x, y := EmptyBlock(P, 0), EmptyBlock(P, 1);
    assert x.header != y.header;
    CommittableIsHashed(P, x, b);
    CommittableIsHashed(P, y, b');
    hide EmptyBlock, Committable, CollisionFree, Agrees;
    if b == b' {
      BlockHashCommits(P.c, x.header, y.header, inputs);
      assert false;
    }
    AgreesExactlyWhen(P, x, b, y, b');
  }
}
