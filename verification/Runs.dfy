/** Building runs of the whole system: many validators taking the same step, signing, and hearing votes. */
module Runs {
  import opened Wrappers
  import opened Ordering
  import opened Votes
  import opened VoteSets
  import opened VoteCounting
  import opened Consensus
  import opened Agreement

  /** Some run of the system leads from s to t. */
  ghost predicate Leads(P: Params, s: System, t: System)
    requires Count(P) >= 1
  {
    exists steps :: Reach(P, s, steps) == Some(t)
  }

  lemma {:induction false} ReachConcat(P: Params, s: System, a: seq<Step>, b: seq<Step>)
    requires Count(P) >= 1 && Reach(P, s, a).Some?
    ensures Reach(P, s, a + b) == Reach(P, Reach(P, s, a).value, b)
    decreases |b|
  {
    hide Next;
    if b == [] {
      assert a + b == a;
    } else {
      ReachConcat(P, s, a, b[..|b| - 1]);
      assert (a + b)[..|a + b| - 1] == a + b[..|b| - 1];
    }
  }

  lemma LeadsNowhere(P: Params, s: System)
    requires Count(P) >= 1
    ensures Leads(P, s, s)
  {
    assert Reach(P, s, []) == Some(s);
  }

  lemma LeadsByStep(P: Params, s: System, step: Step)
    requires Count(P) >= 1 && Next(P, s, step).Some?
    ensures Leads(P, s, Next(P, s, step).value)
  {
    hide Next;
    assert [step][..0] == [];
    assert Reach(P, s, [step]) == Next(P, s, step);
  }

  lemma LeadsThen(P: Params, s: System, t: System, u: System)
    requires Count(P) >= 1 && Leads(P, s, t) && Leads(P, t, u)
    ensures Leads(P, s, u)
  {
    hide Reach;
    var a :| Reach(P, s, a) == Some(t);
    var b :| Reach(P, t, b) == Some(u);
    ReachConcat(P, s, a, b);
    assert Reach(P, s, a + b) == Some(u);
  }

  lemma Path(P: Params, s: System, t: System) returns (steps: seq<Step>)
    requires Count(P) >= 1 && Leads(P, s, t)
    ensures Reach(P, s, steps) == Some(t)
  {
    hide Reach;
    steps :| Reach(P, s, steps) == Some(t);
  }

  // ---------- the votes of a group ----------

  function VoteFor(P: Params, p: Bytes, height: int, round: int, phase: Bytes, b: Bytes): Vote {
    SignedVote(SignerOf(P, p), height, round, phase, Some(b))
  }

  /** One vote for b of every member, in key order. */
  ghost function Ballots(P: Params, members: set<Bytes>, height: int, round: int, phase: Bytes, b: Bytes): seq<Vote> {
    var order := Sorted(members);
    seq(|order|, i requires 0 <= i < |order| => VoteFor(P, order[i], height, round, phase, b))
  }

  lemma BallotsAre(P: Params, members: set<Bytes>, height: int, round: int, phase: Bytes, b: Bytes, v: Vote)
    ensures v in Ballots(P, members, height, round, phase, b) <==>
            v.validatorPubkey in members && v == VoteFor(P, v.validatorPubkey, height, round, phase, b)
  {
    var order, ballots := Sorted(members), Ballots(P, members, height, round, phase, b);
    if v in ballots {
      var i :| 0 <= i < |ballots| && ballots[i] == v;
      SignedVoteFields(SignerOf(P, order[i]), height, round, phase, Some(b));
      assert order[i] in Elements(order);
    }
    if v.validatorPubkey in members && v == VoteFor(P, v.validatorPubkey, height, round, phase, b) {
      assert v.validatorPubkey in Elements(order);
      var i :| 0 <= i < |order| && order[i] == v.validatorPubkey;
      assert ballots[i] == v;
    }
  }

  /** What a replica has after its own vote and those of all members: nothing but votes for b, one of each member. */
  lemma HeardEveryone(P: Params, votes: Stored, members: set<Bytes>, height: int, round: int, phase: Bytes, b: Bytes)
    requires WellKeyed(votes) && forall k :: k in votes ==> votes[k].block == Some(b)
    ensures Unanimous(AddAll(votes, Ballots(P, members, height, round, phase, b)), members, height, round, phase, b)
  {
    var ballots := Ballots(P, members, height, round, phase, b);
    var all := AddAll(votes, ballots);
    AddAllKeeps(votes, ballots);
    hide AddAll, Ballots;
    forall k | k in all ensures all[k].block == Some(b) {
      if k !in votes {
        BallotsAre(P, members, height, round, phase, b, all[k]);
        SignedVoteFields(SignerOf(P, all[k].validatorPubkey), height, round, phase, Some(b));
      }
    }
    forall m | m in members ensures VoteKey(height, round, phase, m) in all {
      var v := VoteFor(P, m, height, round, phase, b);
      SignedVoteFields(SignerOf(P, m), height, round, phase, Some(b));
      BallotsAre(P, members, height, round, phase, b, v);
    }
  }

  /** All stored votes are for b, and every member has one in the slot. */
  ghost predicate Unanimous(votes: Stored, members: set<Bytes>, height: int, round: int, phase: Bytes, b: Bytes) {
    WellKeyed(votes) && (forall k :: k in votes ==> votes[k].block == Some(b))
    && forall m :: m in members ==> VoteKey(height, round, phase, m) in votes
  }

  lemma UnanimousQuorum(votes: Stored, members: set<Bytes>, height: int, round: int, phase: Bytes, b: Bytes, n: int)
    requires n >= 1 && Unanimous(votes, members, height, round, phase, b) && |members| >= Threshold(n)
    ensures HasQuorum(votes, height, round, phase, n, Some(b)) && QuorumBlocks(votes, height, round, phase, n) == {b}
  {
    var voters := Voters(votes, height, round, phase, Some(b));
    forall m | m in members ensures m in voters {
      var k := VoteKey(height, round, phase, m);
      assert KeyOf(votes[k]) == k && Supports(votes[k], height, round, phase, Some(b));
    }
    SubsetSize(members, voters);
    QuorumBlocksMeans(votes, height, round, phase, n, b);
    assert forall x :: x in QuorumBlocks(votes, height, round, phase, n) ==> x == b;
  }

  // ---------- the same step at many validators ----------

  /** A step that does not take a vote from the log. */
  predicate Own(a: Action) {
    !a.GetPrevote? && !a.GetPrecommit?
  }

  lemma OwnIgnoresLog(P: Params, p: Bytes, r: Replica, log: seq<Vote>, a: Action)
    requires Count(P) >= 1 && Own(a)
    ensures Act(P, p, r, log, a) == Act(P, p, r, [], a)
  {
    hide MakePrevote, MakePrecommit, ApplyLock, AfterFinalize, RoundChange, SignedVote;
  }

  /** What the step makes of the replica of p, and the vote it broadcasts. */
  ghost function Does(P: Params, p: Bytes, r: Replica, a: Action): Option<(Replica, Option<Vote>)>
    requires Count(P) >= 1
  {
    Act(P, p, r, [], a)
  }

  /** Outside the group nothing happened, and no vote was lost. */
  ghost predicate Apart(s: System, t: System, group: set<Bytes>) {
    t.replicas.Keys == s.replicas.Keys && s.log <= t.log
    && forall p :: p in s.replicas && p !in group ==> t.replicas[p] == s.replicas[p]
  }

  ghost predicate DidStep(P: Params, p: Bytes, r: Replica, a: Action, r': Replica, log: seq<Vote>)
    requires Count(P) >= 1
  {
    Does(P, p, r, a).Some? && r' == Does(P, p, r, a).value.0
    && (Does(P, p, r, a).value.1.Some? ==> Does(P, p, r, a).value.1.value in log)
  }

  lemma ActsOnce(P: Params, s: System, p: Bytes, a: Action) returns (t: System)
    requires Count(P) >= 1 && Own(a) && p in s.replicas && Does(P, p, s.replicas[p], a).Some?
    ensures Leads(P, s, t) && Apart(s, t, {p}) && DidStep(P, p, s.replicas[p], a, t.replicas[p], t.log)
  {
    hide Act;
    OwnIgnoresLog(P, p, s.replicas[p], s.log, a);
    LeadsByStep(P, s, Correct(p, a));
    t := Next(P, s, Correct(p, a)).value;
  }

  /** Every member of the group takes the step. */
  lemma {:induction false} EachActs(P: Params, s: System, group: set<Bytes>, a: Action) returns (t: System)
    requires Count(P) >= 1 && Own(a) && group <= s.replicas.Keys
    requires forall p :: p in group ==> Does(P, p, s.replicas[p], a).Some?
    ensures Leads(P, s, t) && Apart(s, t, group)
    ensures forall p :: p in group ==> DidStep(P, p, s.replicas[p], a, t.replicas[p], t.log)
    decreases |group|
  {
    hide Does, Leads;
    if group == {} {
      LeadsNowhere(P, s);
      t := s;
    } else {
      var p :| p in group;
      var rest := group - {p};
      var u := ActsOnce(P, s, p, a);
      t := EachActs(P, u, rest, a);
      LeadsThen(P, s, u, t);
    }
  }

  // ---------- byzantine signatures ----------

  lemma SignsOnce(P: Params, s: System, v: Vote)
    requires Count(P) >= 1 && v.validatorPubkey in P.committee.byzantine
    ensures Leads(P, s, s.(log := s.log + [v]))
  {
    LeadsByStep(P, s, Adversary(v));
    hide Leads;
  }

  /** Byzantine validators sign the votes one after the other. */
  lemma {:induction false} AllSigned(P: Params, s: System, votes: seq<Vote>)
    requires Count(P) >= 1 && forall v :: v in votes ==> v.validatorPubkey in P.committee.byzantine
    ensures Leads(P, s, s.(log := s.log + votes))
    decreases |votes|
  {
    hide Leads;
    if votes == [] {
      assert s.log + votes == s.log;
      LeadsNowhere(P, s);
    } else {
      var u := s.(log := s.log + [votes[0]]);
      SignsOnce(P, s, votes[0]);
      AllSigned(P, u, votes[1..]);
      assert u.log + votes[1..] == s.log + votes;
      LeadsThen(P, s, u, s.(log := s.log + votes));
    }
  }

  // ---------- hearing votes ----------

  /** The replica after receiving the votes of a phase in order. */
  function Hears(r: Replica, precommits: bool, votes: seq<Vote>): Replica {
    if precommits then r.(node := r.node.(precommits := AddAll(r.node.precommits, votes)))
    else r.(node := r.node.(prevotes := AddAll(r.node.prevotes, votes)))
  }

  /** The votes are in the log, and prevotes are for blocks whose header the replica holds. */
  ghost predicate Hearable(r: Replica, log: seq<Vote>, precommits: bool, votes: seq<Vote>) {
    forall v :: v in votes ==> v in log && (!precommits && v.block.Some? ==> v.block.value in r.node.store.headers)
  }

  lemma {:induction false} HearsAll(P: Params, s: System, p: Bytes, precommits: bool, votes: seq<Vote>)
    requires Count(P) >= 1 && p in s.replicas && Hearable(s.replicas[p], s.log, precommits, votes)
    ensures Leads(P, s, s.(replicas := s.replicas[p := Hears(s.replicas[p], precommits, votes)]))
    decreases |votes|
  {
    if votes == [] {
      assert s.replicas[p := s.replicas[p]] == s.replicas;
      LeadsNowhere(P, s);
    } else {
      var n := |votes| - 1;
      var v := votes[n];
      HearsAll(P, s, p, precommits, votes[..n]);
      var u := s.(replicas := s.replicas[p := Hears(s.replicas[p], precommits, votes[..n])]);
      var step := Correct(p, if precommits then GetPrecommit(v) else GetPrevote(v));
      var t := s.(replicas := s.replicas[p := Hears(s.replicas[p], precommits, votes)]);
      assert v in s.log;
      assert u.replicas[p := Hears(s.replicas[p], precommits, votes)] == t.replicas;
      assert Next(P, u, step) == Some(t);
      LeadsByStep(P, u, step);
      hide Leads, Next;
      LeadsThen(P, s, u, t);
    }
  }

  /** Every member of the group receives the votes. */
  lemma {:induction false} EachHears(P: Params, s: System, group: set<Bytes>, precommits: bool, votes: seq<Vote>)
    returns (t: System)
    requires Count(P) >= 1 && group <= s.replicas.Keys
    requires forall p :: p in group ==> Hearable(s.replicas[p], s.log, precommits, votes)
    ensures Leads(P, s, t) && Apart(s, t, group) && t.log == s.log
    ensures forall p :: p in group ==> t.replicas[p] == Hears(s.replicas[p], precommits, votes)
    decreases |group|
  {
    hide Leads, Hears, Hearable;
    if group == {} {
      LeadsNowhere(P, s);
      t := s;
    } else {
      var p :| p in group;
      HearsAll(P, s, p, precommits, votes);
      var u := s.(replicas := s.replicas[p := Hears(s.replicas[p], precommits, votes)]);
      t := EachHears(P, u, group - {p}, precommits, votes);
      LeadsThen(P, s, u, t);
    }
  }
}
