/** Round progress as a run of the whole system: the steps exist, and the vote tracker is asked before each vote. */
module ProgressRuns {
  import opened Wrappers
  import opened Ordering
  import opened Votes
  import opened VoteSets
  import opened VoteCounting
  import opened Consensus
  import opened Agreement
  import opened Runs
  import opened Progress

  function SettingOf(P: Params): Setting {
    Setting(P.c, P.cfg, P.chainId, P.committee.validators, P.keys)
  }

  /** What the validators of a round hear: one prevote and one precommit for b of every good one. */
  ghost function RoundInbox(P: Params, good: set<Bytes>, plan: Plan, b: Bytes): Inbox {
    Inbox(Ballots(P, good, plan.height, plan.round, PREVOTE, b),
          Ballots(P, good, plan.height, plan.round, PRECOMMIT, b))
  }

  /** The vote tracker of the replica still allows both votes of the round. */
  predicate MayVote(r: Replica, plan: Plan) {
    Slot(plan.height, plan.round, PREVOTE) !in r.sent && Slot(plan.height, plan.round, PRECOMMIT) !in r.sent
  }

  /** A good validator in the system, at the start of the round. */
  ghost predicate Joins(P: Params, good: set<Bytes>, r: Replica, plan: Plan, b: Bytes) {
    Starts(SettingOf(P), good, r.node, plan.height, plan.round, b) && MayVote(r, plan)
  }

  // ---------- one validator, step by step ----------

  ghost function Prevoting(P: Params, p: Bytes, r: Replica, plan: Plan, b: Bytes): Replica
    requires Count(P) >= 1 && |b| == HASH_SIZE
  {
    r.(node := AfterPrevote(SettingOf(P), p, r.node, b).0, sent := r.sent + {Slot(plan.height, plan.round, PREVOTE)})
  }

  ghost function Precommitting(P: Params, p: Bytes, r: Replica, good: set<Bytes>, plan: Plan, b: Bytes): Replica
    requires Count(P) >= 1 && |b| == HASH_SIZE
  {
    r.(node := AfterPrecommit(SettingOf(P), p, r.node, b, RoundInbox(P, good, plan, b)).0,
       sent := r.sent + {Slot(plan.height, plan.round, PREVOTE)} + {Slot(plan.height, plan.round, PRECOMMIT)})
  }

  lemma StepPrevoting(P: Params, p: Bytes, good: set<Bytes>, r: Replica, plan: Plan, b: Bytes)
    requires Count(P) >= 1 && |b| == HASH_SIZE && Joins(P, good, r, plan, b)
    ensures Does(P, p, r, Prevote(b))
            == Some((Prevoting(P, p, r, plan, b), Some(VoteFor(P, p, plan.height, plan.round, PREVOTE, b))))
    ensures AfterPrevote(SettingOf(P), p, r.node, b).1 == VoteFor(P, p, plan.height, plan.round, PREVOTE, b)
    ensures b in Prevoting(P, p, r, plan, b).node.store.headers
  {
    SignedVoteFields(SignerOf(P, p), plan.height, plan.round, PREVOTE, Some(b));
    hide SignedVote, SetFavours, Keep;
  }

  lemma StepPrecommitting(P: Params, p: Bytes, good: set<Bytes>, r: Replica, plan: Plan, b: Bytes)
    requires Count(P) >= 1 && |b| == HASH_SIZE && Joins(P, good, r, plan, b)
    requires AfterPrecommit(SettingOf(P), p, r.node, b, RoundInbox(P, good, plan, b)).1.block == Some(b)
    ensures var heard := Hears(Prevoting(P, p, r, plan, b), false, RoundInbox(P, good, plan, b).prevotes);
            Does(P, p, heard, LockAndPrecommit)
            == Some((Precommitting(P, p, r, good, plan, b), Some(VoteFor(P, p, plan.height, plan.round, PRECOMMIT, b))))
    ensures AfterPrecommit(SettingOf(P), p, r.node, b, RoundInbox(P, good, plan, b)).1
            == VoteFor(P, p, plan.height, plan.round, PRECOMMIT, b)
  {
    var heard := Hears(Prevoting(P, p, r, plan, b), false, RoundInbox(P, good, plan, b).prevotes);
    var locked := ApplyLock(heard.node, heard.node.round, Count(P)).0;
    SignedVoteFields(SignerOf(P, p), plan.height, plan.round, PRECOMMIT, PrecommitTarget(locked, Count(P)));
    assert PREVOTE != PRECOMMIT by {
      assert |PREVOTE| != |PRECOMMIT|;
    }
    hide SignedVote, SetFavours, Keep, AddAll, Ballots, PrecommitTarget, PrevoteTarget, FirstOf, Lockable;
  }

  lemma StepFinalizing(P: Params, p: Bytes, good: set<Bytes>, r: Replica, plan: Plan, b: Bytes)
    requires Count(P) >= 1 && |b| == HASH_SIZE
    ensures var heard := Hears(Precommitting(P, p, r, good, plan, b), true, RoundInbox(P, good, plan, b).precommits);
            var (node, ledger, _) := AfterRound(SettingOf(P), p, r.node, r.ledger, b, RoundInbox(P, good, plan, b));
            Does(P, p, heard, FinalizeStep(false)).Some?
            && Does(P, p, heard, FinalizeStep(false)).value.0.node == node
            && Does(P, p, heard, FinalizeStep(false)).value.0.ledger == ledger
  {
    hide AfterPrecommit, TryFinalize, AddAll, Ballots;
  }

  // ---------- the inbox of the round ----------

  lemma BallotsFavour(P: Params, good: set<Bytes>, height: int, round: int, phase: Bytes, b: Bytes)
    requires good <= P.committee.validators
    ensures ListFavours(Ballots(P, good, height, round, phase, b), SettingOf(P), good, height, round, phase, b)
    ensures Heard(Ballots(P, good, height, round, phase, b), good, height, round, phase)
  {
    var ballots := Ballots(P, good, height, round, phase, b);
    hide Ballots;
    forall v | v in ballots ensures Favours(v, SettingOf(P), good, height, round, phase, b) {
      BallotsAre(P, good, height, round, phase, b, v);
      SignedVoteFields(SignerOf(P, v.validatorPubkey), height, round, phase, Some(b));
    }
    forall q | q in good ensures exists v :: v in ballots && KeyOf(v) == VoteKey(height, round, phase, q) {
      var v := VoteFor(P, q, height, round, phase, b);
      SignedVoteFields(SignerOf(P, q), height, round, phase, Some(b));
      BallotsAre(P, good, height, round, phase, b, v);
      assert KeyOf(v) == VoteKey(height, round, phase, q);
    }
  }

  /** Among the ballots each key is used once, and by a validator. */
  lemma BallotsFromCommittee(P: Params, good: set<Bytes>, height: int, round: int, phase: Bytes, b: Bytes, q: Bytes)
    requires good <= P.committee.validators && q in good
    ensures var v := VoteFor(P, q, height, round, phase, b);
            v in Ballots(P, good, height, round, phase, b)
            && FromCommittee(Ballots(P, good, height, round, phase, b), SettingOf(P), KeyOf(v), v.block)
  {
    hide Ballots, VoteFor;
    var v := VoteFor(P, q, height, round, phase, b);
    VoteForFields(P, q, height, round, phase, b);
    BallotsAre(P, good, height, round, phase, b, v);
    forall w | w in Ballots(P, good, height, round, phase, b)
      ensures w.validatorPubkey in P.committee.validators && w.block == v.block
    {
      BallotsAre(P, good, height, round, phase, b, w);
      VoteForFields(P, w.validatorPubkey, height, round, phase, b);
    }
  }

  lemma VoteForFields(P: Params, q: Bytes, height: int, round: int, phase: Bytes, b: Bytes)
    ensures VoteFor(P, q, height, round, phase, b).validatorPubkey == q
    ensures VoteFor(P, q, height, round, phase, b).block == Some(b)
  {
    SignedVoteFields(SignerOf(P, q), height, round, phase, Some(b));
  }

  ghost predicate Group(P: Params, good: set<Bytes>) {
    Count(P) >= 1 && Count(P) != 2 && Count(P) != 3 && Count(P) != 6
    && good <= P.committee.validators && |good| >= Threshold(Count(P))
  }

  /** Hearing the good prevotes, every good validator precommits b. */
  lemma PrecommitsInRun(P: Params, good: set<Bytes>, p: Bytes, r: Replica, plan: Plan, b: Bytes)
    requires Group(P, good) && |b| == HASH_SIZE && p in good && Joins(P, good, r, plan, b)
    ensures AfterPrecommit(SettingOf(P), p, r.node, b, RoundInbox(P, good, plan, b)).1.block == Some(b)
  {
    BallotsFavour(P, good, plan.height, plan.round, PREVOTE, b);
    hide Ballots, AfterPrecommit, ListFavours, Heard, Starts;
    PrecommitsBlock(SettingOf(P), p, good, r.node, plan.height, plan.round, b, RoundInbox(P, good, plan, b));
  }

  lemma ExchangedInRun(P: Params, good: set<Bytes>, replicas: map<Bytes, Replica>, nodes: map<Bytes, Node>,
                       inboxes: map<Bytes, Inbox>, plan: Plan, b: Bytes)
    requires Group(P, good) && |b| == HASH_SIZE && good <= replicas.Keys && good <= nodes.Keys && good <= inboxes.Keys
    requires forall p :: p in good ==> Joins(P, good, replicas[p], plan, b) && nodes[p] == replicas[p].node
    requires forall p :: p in good ==> inboxes[p] == RoundInbox(P, good, plan, b)
    ensures Exchanged(SettingOf(P), good, nodes, inboxes, b)
  {
    forall q | q in good
      ensures AfterPrevote(SettingOf(P), q, nodes[q], b).1 == VoteFor(P, q, plan.height, plan.round, PREVOTE, b)
      ensures AfterPrecommit(SettingOf(P), q, nodes[q], b, inboxes[q]).1
              == VoteFor(P, q, plan.height, plan.round, PRECOMMIT, b)
    {
      hide AfterPrevote, AfterPrecommit, Joins, Ballots, Does, VoteFor;
      PrecommitsInRun(P, good, q, replicas[q], plan, b);
      StepPrevoting(P, q, good, replicas[q], plan, b);
      StepPrecommitting(P, q, good, replicas[q], plan, b);
    }
    hide AfterPrevote, AfterPrecommit, Joins, Ballots, VoteFor, FromCommittee;
    forall q | q in good
      ensures var v := VoteFor(P, q, plan.height, plan.round, PREVOTE, b);
              v in RoundInbox(P, good, plan, b).prevotes
              && FromCommittee(RoundInbox(P, good, plan, b).prevotes, SettingOf(P), KeyOf(v), v.block)
      ensures var v := VoteFor(P, q, plan.height, plan.round, PRECOMMIT, b);
              v in RoundInbox(P, good, plan, b).precommits
              && FromCommittee(RoundInbox(P, good, plan, b).precommits, SettingOf(P), KeyOf(v), v.block)
    {
      BallotsFromCommittee(P, good, plan.height, plan.round, PREVOTE, b, q);
      BallotsFromCommittee(P, good, plan.height, plan.round, PRECOMMIT, b, q);
    }
  }

  // ---------- the run ----------

  lemma AllHearable(P: Params, good: set<Bytes>, r: Replica, log: seq<Vote>, precommits: bool, height: int, round: int,
                    phase: Bytes, b: Bytes)
    requires forall m :: m in good ==> VoteFor(P, m, height, round, phase, b) in log
    requires !precommits ==> b in r.node.store.headers
    ensures Hearable(r, log, precommits, Ballots(P, good, height, round, phase, b))
  {
    hide VoteFor, Ballots;
    forall v | v in Ballots(P, good, height, round, phase, b) ensures v in log && v.block == Some(b) {
      BallotsAre(P, good, height, round, phase, b, v);
      VoteForFields(P, v.validatorPubkey, height, round, phase, b);
    }
  }

  /** The good validators prevote b and hear each other. */
  lemma PrevotePhase(P: Params, s: System, good: set<Bytes>, plan: Plan, b: Bytes) returns (t: System)
    requires Group(P, good) && |b| == HASH_SIZE && good <= s.replicas.Keys
    requires forall p :: p in good ==> Joins(P, good, s.replicas[p], plan, b)
    ensures Leads(P, s, t) && Apart(s, t, good)
    ensures forall p :: p in good ==>
              t.replicas[p] == Hears(Prevoting(P, p, s.replicas[p], plan, b), false,
                                     RoundInbox(P, good, plan, b).prevotes)
  {
    hide Does, Leads, VoteFor, Prevoting, Hears, Hearable, Joins, Ballots;
    forall p | p in good
      ensures Does(P, p, s.replicas[p], Prevote(b))
              == Some((Prevoting(P, p, s.replicas[p], plan, b),
                       Some(VoteFor(P, p, plan.height, plan.round, PREVOTE, b))))
      ensures b in Prevoting(P, p, s.replicas[p], plan, b).node.store.headers
    {
      StepPrevoting(P, p, good, s.replicas[p], plan, b);
    }
    var t1 := EachActs(P, s, good, Prevote(b));
    forall p | p in good
      ensures t1.replicas[p] == Prevoting(P, p, s.replicas[p], plan, b)
      ensures VoteFor(P, p, plan.height, plan.round, PREVOTE, b) in t1.log
    {
      assert DidStep(P, p, s.replicas[p], Prevote(b), t1.replicas[p], t1.log);
    }
    forall p | p in good ensures Hearable(t1.replicas[p], t1.log, false, RoundInbox(P, good, plan, b).prevotes) {
      AllHearable(P, good, t1.replicas[p], t1.log, false, plan.height, plan.round, PREVOTE, b);
    }
    t := EachHears(P, t1, good, false, RoundInbox(P, good, plan, b).prevotes);
    LeadsThen(P, s, t1, t);
  }

  /** They lock b, precommit it and hear each other again. */
  lemma PrecommitPhase(P: Params, s: System, start: System, good: set<Bytes>, plan: Plan, b: Bytes) returns (t: System)
    requires Group(P, good) && |b| == HASH_SIZE && good <= s.replicas.Keys && good <= start.replicas.Keys
    requires forall p :: p in good ==> Joins(P, good, start.replicas[p], plan, b)
    requires forall p :: p in good ==>
               s.replicas[p] == Hears(Prevoting(P, p, start.replicas[p], plan, b), false,
                                      RoundInbox(P, good, plan, b).prevotes)
    ensures Leads(P, s, t) && Apart(s, t, good)
    ensures forall p :: p in good ==>
              t.replicas[p] == Hears(Precommitting(P, p, start.replicas[p], good, plan, b), true,
                                     RoundInbox(P, good, plan, b).precommits)
  {
    hide Does, Leads, VoteFor, Prevoting, Precommitting, Hears, Hearable, Joins, Ballots, AfterPrecommit;
    forall p | p in good
      ensures Does(P, p, s.replicas[p], LockAndPrecommit)
              == Some((Precommitting(P, p, start.replicas[p], good, plan, b),
                       Some(VoteFor(P, p, plan.height, plan.round, PRECOMMIT, b))))
    {
      PrecommitsInRun(P, good, p, start.replicas[p], plan, b);
      StepPrecommitting(P, p, good, start.replicas[p], plan, b);
    }
    var t1 := EachActs(P, s, good, LockAndPrecommit);
    forall p | p in good
      ensures t1.replicas[p] == Precommitting(P, p, start.replicas[p], good, plan, b)
      ensures VoteFor(P, p, plan.height, plan.round, PRECOMMIT, b) in t1.log
    {
      assert DidStep(P, p, s.replicas[p], LockAndPrecommit, t1.replicas[p], t1.log);
    }
    forall p | p in good ensures Hearable(t1.replicas[p], t1.log, true, RoundInbox(P, good, plan, b).precommits) {
      AllHearable(P, good, t1.replicas[p], t1.log, true, plan.height, plan.round, PRECOMMIT, b);
    }
    t := EachHears(P, t1, good, true, RoundInbox(P, good, plan, b).precommits);
    LeadsThen(P, s, t1, t);
  }

  /** The replica finalized the planned block, on top of what its ledger held before, and is at the next height. */
  ghost predicate Advanced(P: Params, r: Replica, r': Replica, plan: Plan, b: Bytes)
    requires Proposes(P.c, P.cfg, plan, b)
  {
    r'.node == NewHeight(r.node, plan.height + 1)
    && r'.ledger.entries == r.ledger.entries[plan.height := PlannedEntry(P.c, P.cfg, plan, b)]
    && PlannedEntry(P.c, P.cfg, plan, b).blockHash == b
  }

  lemma AdvancedInRound(P: Params, p: Bytes, r: Replica, r': Replica, plan: Plan, b: Bytes, inbox: Inbox)
    requires Count(P) >= 1 && |b| == HASH_SIZE && Proposes(P.c, P.cfg, plan, b)
    requires var result := AfterRound(SettingOf(P), p, r.node, r.ledger, b, inbox);
             Achieved(SettingOf(P), plan, b, r.node, r.ledger, result) && r'.node == result.0 && r'.ledger == result.1
    ensures Advanced(P, r, r', plan, b)
  {
    hide AfterRound, PlannedEntry, Proposes;
  }

  /** Each good validator finalizes. */
  lemma FinalizePhase(P: Params, s: System, start: System, good: set<Bytes>, plan: Plan, b: Bytes) returns (t: System)
    requires Group(P, good) && |b| == HASH_SIZE && good <= s.replicas.Keys && good <= start.replicas.Keys
    requires forall p :: p in good ==>
               s.replicas[p] == Hears(Precommitting(P, p, start.replicas[p], good, plan, b), true,
                                      RoundInbox(P, good, plan, b).precommits)
    ensures Leads(P, s, t) && Apart(s, t, good)
    ensures forall p :: p in good ==>
              var r := start.replicas[p];
              var (node, ledger, _) := AfterRound(SettingOf(P), p, r.node, r.ledger, b, RoundInbox(P, good, plan, b));
              t.replicas[p].node == node && t.replicas[p].ledger == ledger
  {
    hide Does, Leads, Precommitting, Hears, Ballots, AfterRound;
    forall p | p in good ensures Does(P, p, s.replicas[p], FinalizeStep(false)).Some? {
      StepFinalizing(P, p, good, start.replicas[p], plan, b);
    }
    t := EachActs(P, s, good, FinalizeStep(false));
    forall p | p in good
      ensures var r := start.replicas[p];
              var (node, ledger, _) := AfterRound(SettingOf(P), p, r.node, r.ledger, b, RoundInbox(P, good, plan, b));
              t.replicas[p].node == node && t.replicas[p].ledger == ledger
    {
      StepFinalizing(P, p, good, start.replicas[p], plan, b);
      assert DidStep(P, p, s.replicas[p], FinalizeStep(false), t.replicas[p], t.log);
    }
  }

  /** What `RoundProgress` says of the good validators of the system. */
  lemma AllAchieve(P: Params, s: System, good: set<Bytes>, plan: Plan, b: Bytes)
    requires Group(P, good) && |b| == HASH_SIZE && Proposes(P.c, P.cfg, plan, b) && good <= s.replicas.Keys
    requires forall p :: p in good ==>
               Joins(P, good, s.replicas[p], plan, b)
               && Ready(SettingOf(P), good, s.replicas[p].node, s.replicas[p].ledger, plan, b)
    ensures forall p :: p in good ==>
              var r := s.replicas[p];
              Achieved(SettingOf(P), plan, b, r.node, r.ledger,
                       AfterRound(SettingOf(P), p, r.node, r.ledger, b, RoundInbox(P, good, plan, b)))
  {
    hide Proposes, Joins, AfterRound, Exchanged, Ready, Achieved, RoundInbox;
    var nodes := map p | p in good :: s.replicas[p].node;
    var ledgers := map p | p in good :: s.replicas[p].ledger;
    var inboxes := map p | p in good :: RoundInbox(P, good, plan, b);
    ExchangedInRun(P, good, s.replicas, nodes, inboxes, plan, b);
    RoundProgress(SettingOf(P), good, nodes, ledgers, inboxes, plan, b);
  }

  lemma ReadyJoins(P: Params, good: set<Bytes>, r: Replica, plan: Plan, b: Bytes)
    requires Proposes(P.c, P.cfg, plan, b)
    requires Ready(SettingOf(P), good, r.node, r.ledger, plan, b) && MayVote(r, plan)
    ensures Joins(P, good, r, plan, b)
  {
    hide Proposes, Starts, PlannedBlock;
  }

  /** Round progress in the system. From any state in which at least 2f + 1 correct validators are ready for the round
      and have not voted in it yet, there are steps after which all of them have finalized the proposed block. */
  lemma RoundProgressInRun(P: Params, s: System, good: set<Bytes>, plan: Plan, b: Bytes) returns (steps: seq<Step>)
    requires Group(P, good) && |b| == HASH_SIZE && Proposes(P.c, P.cfg, plan, b) && good <= s.replicas.Keys
    requires forall p :: p in good ==>
               Ready(SettingOf(P), good, s.replicas[p].node, s.replicas[p].ledger, plan, b)
               && MayVote(s.replicas[p], plan)
    ensures Reach(P, s, steps).Some?
    ensures forall p :: p in good ==>
              p in Reach(P, s, steps).value.replicas
              && Advanced(P, s.replicas[p], Reach(P, s, steps).value.replicas[p], plan, b)
  {
    hide Leads, Proposes, Joins, AfterRound, Ready, Hears, Prevoting, Precommitting, Achieved, Advanced, Reach, MayVote;
    hide RoundInbox;
    forall p | p in good ensures Joins(P, good, s.replicas[p], plan, b) {
      ReadyJoins(P, good, s.replicas[p], plan, b);
    }
    var t1 := PrevotePhase(P, s, good, plan, b);
    var t2 := PrecommitPhase(P, t1, s, good, plan, b);
    var t3 := FinalizePhase(P, t2, s, good, plan, b);
    LeadsThen(P, s, t1, t2);
    LeadsThen(P, s, t2, t3);
    AllAchieve(P, s, good, plan, b);
    forall p | p in good ensures Advanced(P, s.replicas[p], t3.replicas[p], plan, b) {
      AdvancedInRound(P, p, s.replicas[p], t3.replicas[p], plan, b, RoundInbox(P, good, plan, b));
    }
    steps := Path(P, s, t3);
  }
}
