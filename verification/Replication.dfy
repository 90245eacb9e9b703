/** From agreement on hashes to replicated state: in every run, correct validators' ledgers hold the same entries. */
module Replication {
  import opened Ordering
  import opened Crypto
  import opened Blocks
  import opened Bodies
  import opened Ledgers
  import opened Chain
  import opened BlockStores
  import opened Consensus
  import opened Agreement

  // ---------- where blocks come from ----------

  ghost predicate HeaderIn(header: BlockHeader, inputs: set<Bytes>) {
    Blocks.SignedBytes(header).Some? ==> Blocks.SignedBytes(header).value in inputs
  }

  /** The headers and bodies a step delivers are hashed only on the given inputs. */
  ghost predicate StepCovered(P: Params, step: Step, inputs: set<Bytes>) {
    (step.Correct? && step.action.GetHeader? ==> HeaderIn(step.action.header, inputs))
    && (step.Correct? && step.action.GetBody? ==> BodyCovered(P.c, step.action.txs, inputs))
  }

  ghost predicate StoreCovered(P: Params, store: Store, inputs: set<Bytes>) {
    (forall h :: h in store.headers ==> HeaderIn(store.headers[h], inputs))
    && (forall h :: h in store.bodies ==> BodyCovered(P.c, store.bodies[h], inputs))
  }

  ghost predicate ChainCovered(P: Params, L: LedgerState, inputs: set<Bytes>) {
    L.chainId == P.chainId
    && exists H, blocks :: Healthy(P.c, P.cfg, L, H, blocks, 1) && BlocksCovered(P.c, blocks, inputs)
  }

  ghost predicate ReplicaCovered(P: Params, r: Replica, inputs: set<Bytes>) {
    StoreCovered(P, r.node.store, inputs) && ChainCovered(P, r.ledger, inputs)
  }

  ghost predicate SystemCovered(P: Params, s: System, inputs: set<Bytes>) {
    forall p :: p in s.replicas ==> ReplicaCovered(P, s.replicas[p], inputs)
  }

  lemma BlockAdded(P: Params, blocks: seq<Block>, b: Block, inputs: set<Bytes>)
    requires BlocksCovered(P.c, blocks, inputs) && HeaderIn(b.header, inputs) && BodyCovered(P.c, b.body, inputs)
    ensures BlocksCovered(P.c, blocks + [b], inputs)
  {
    hide BodyCovered, Blocks.SignedBytes;
  }

  lemma CommitKeepsCovered(P: Params, L: LedgerState, block: Block, fault: Fault, inputs: set<Bytes>)
    requires ChainCovered(P, L, inputs) && (fault == NoFault || fault == WriteFails)
    requires HeaderIn(block.header, inputs) && BodyCovered(P.c, block.body, inputs)
    ensures ChainCovered(P, Commit(P.c, P.cfg, L, block, fault).0, inputs)
  {
    hide Commit, Healthy, BlocksCovered, HeaderIn, BodyCovered;
    var H, blocks :| Healthy(P.c, P.cfg, L, H, blocks, 1) && BlocksCovered(P.c, blocks, inputs);
    NotCrashed(P.c, P.cfg, L, block, fault);
    var H', blocks', lo := TryStaysHealthy(P.c, P.cfg, L, Attempt(block, fault), H, blocks, 1);
    BlockAdded(P, blocks, block, inputs);
    NothingCovered(P, inputs);
    assert Healthy(P.c, P.cfg, Commit(P.c, P.cfg, L, block, fault).0, H', blocks', 1);
  }

  lemma NothingCovered(P: Params, inputs: set<Bytes>)
    ensures BlocksCovered(P.c, [], inputs)
  {
  }

  lemma FinalizeKeepsCovered(P: Params, r: Replica, writeFails: bool, inputs: set<Bytes>)
    requires Agreement.Count(P) >= 1 && ReplicaCovered(P, r, inputs)
    ensures ReplicaCovered(P, AfterFinalize(P, r, writeFails), inputs)
  {
    hide Commit, ChainCovered, HeaderIn, BodyCovered, Consensus.Prune;
    var fault := if writeFails then WriteFails else NoFault;
    forall h | h in r.node.store.headers && h in r.node.store.bodies
      ensures ChainCovered(P, Commit(P.c, P.cfg, r.ledger, Block(r.node.store.headers[h], r.node.store.bodies[h]),
                                     fault).0, inputs)
    {
      CommitKeepsCovered(P, r.ledger, Block(r.node.store.headers[h], r.node.store.bodies[h]), fault, inputs);
    }
  }

  lemma ActKeepsCovered(P: Params, p: Bytes, r: Replica, log: seq<Votes.Vote>, a: Action, inputs: set<Bytes>)
    requires Agreement.Count(P) >= 1 && ReplicaCovered(P, r, inputs) && StepCovered(P, Correct(p, a), inputs)
    requires Act(P, p, r, log, a).Some?
    ensures ReplicaCovered(P, Act(P, p, r, log, a).value.0, inputs)
  {
    hide ChainCovered, HeaderIn, BodyCovered, AfterFinalize, BlockHash, SignedVote;
    if a.FinalizeStep? {
      FinalizeKeepsCovered(P, r, a.writeFails, inputs);
    }
  }

  lemma {:induction false} RunIsCovered(P: Params, s: System, steps: seq<Step>, inputs: set<Bytes>)
    requires P.committee.Valid() && Init(P, s) && Reach(P, s, steps).Some?
    requires forall i :: 0 <= i < |steps| ==> StepCovered(P, steps[i], inputs)
    ensures SystemCovered(P, Reach(P, s, steps).value, inputs)
  {
    hide Act, StepCovered;
    if steps == [] {
      forall p | p in s.replicas ensures ReplicaCovered(P, s.replicas[p], inputs) {
        EmptyIsCovered(P, s, p, inputs);
      }
    } else {
      var n := |steps| - 1;
      RunIsCovered(P, s, steps[..n], inputs);
      var t := Reach(P, s, steps[..n]).value;
      if steps[n].Correct? {
        ActKeepsCovered(P, steps[n].p, t.replicas[steps[n].p], t.log, steps[n].action, inputs);
      }
    }
  }

  lemma EmptyIsCovered(P: Params, s: System, p: Bytes, inputs: set<Bytes>)
    requires Init(P, s) && p in s.replicas
    ensures ReplicaCovered(P, s.replicas[p], inputs)
  {
    hide BodyCovered;
    EmptyHistory(P.c, P.cfg, P.chainId);
    NothingCovered(P, inputs);
    assert Healthy(P.c, P.cfg, s.replicas[p].ledger, [], [], 1);
  }

  // ---------- the theorem ----------

  /** Two covered ledgers with the same hash at a height have the same entry there. */
  lemma SameHashSameEntry(P: Params, L: LedgerState, L': LedgerState, inputs: set<Bytes>, h: int)
    requires CollisionFree(P.c, inputs) && ChainCovered(P, L, inputs) && ChainCovered(P, L', inputs)
    requires h in L.entries && h in L'.entries && L.entries[h].blockHash == L'.entries[h].blockHash
    ensures L.entries[h] == L'.entries[h]
  {
    hide BlocksCovered, History, Synced, CollisionFree;
    var H, a :| Healthy(P.c, P.cfg, L, H, a, 1) && BlocksCovered(P.c, a, inputs);
    var G, b :| Healthy(P.c, P.cfg, L', G, b, 1) && BlocksCovered(P.c, b, inputs);
    SameHashSameHistory(P.c, P.cfg, P.chainId, H, a, G, b, inputs, h - 1, h - 1);
  }

  /** State machine replication. In every run, at whatever points two correct validators are looked at, their ledgers
      hold the same entry, with the same header, transactions, state and nonces, at every height both finalized. */
  lemma LedgersReplicate(P: Params, s: System, steps: seq<Step>, i: nat, j: nat, p: Bytes, q: Bytes, h: int,
                         inputs: set<Bytes>)
    requires P.committee.Valid() && Init(P, s) && Reach(P, s, steps).Some? && i <= |steps| && j <= |steps|
    requires CollisionFree(P.c, inputs) && forall k :: 0 <= k < |steps| ==> StepCovered(P, steps[k], inputs)
    requires Reach(P, s, steps[..i]).Some? && Reach(P, s, steps[..j]).Some?
    requires var a, b := Reach(P, s, steps[..i]).value, Reach(P, s, steps[..j]).value;
             p in a.replicas && q in b.replicas
             && h in a.replicas[p].ledger.entries && h in b.replicas[q].ledger.entries
    ensures var a, b := Reach(P, s, steps[..i]).value, Reach(P, s, steps[..j]).value;
            a.replicas[p].ledger.entries[h] == b.replicas[q].ledger.entries[h]
  {
    hide Reach, Init, StepCovered, ChainCovered, StoreCovered, CollisionFree;
    AgreementHolds(P, s, steps, i, j, p, q, h);
    RunIsCovered(P, s, steps[..i], inputs);
    RunIsCovered(P, s, steps[..j], inputs);
    var a, b := Reach(P, s, steps[..i]).value, Reach(P, s, steps[..j]).value;
    assert ReplicaCovered(P, a.replicas[p], inputs) && ReplicaCovered(P, b.replicas[q], inputs);
    SameHashSameEntry(P, a.replicas[p].ledger, b.replicas[q].ledger, inputs, h);
  }
}
