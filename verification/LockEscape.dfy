/** A precommit decided without applying the lock first may leave the lock, although every validator is correct. */
module LockEscapes {
  import opened Wrappers
  import opened Ordering
  import opened Blocks
  import opened Chain
  import opened Votes
  import opened VoteSets
  import opened VoteCounting
  import opened BlockStores
  import opened Consensus
  import opened Agreement
  import opened Runs
  import opened Tightness

  /** The node after locking a in round 0 and moving on to round 1 with both headers. */
  ghost predicate LockedOnFirst(node: Node, x: BlockHeader, a: Bytes, y: BlockHeader, b: Bytes) {
    node == Node(1, 1, Some(a), Some(0), Some(a), Store(map[a := x, b := y], map[]), map[], map[])
  }

  /** An unlocked node that moved on to round 1 with both headers. */
  ghost predicate FreeInSecond(node: Node, x: BlockHeader, a: Bytes, y: BlockHeader, b: Bytes) {
    node == Node(1, 1, None, None, None, Store(map[a := x, b := y], map[]), map[], map[])
  }

  ghost function Holding(r: Replica, a: Bytes): Replica {
    r.(node := r.node.(lockedHash := Some(a), lockedRound := Some(0), validHash := Some(a)))
  }

  lemma StepLock(P: Params, p: Bytes, r: Replica, x: BlockHeader, a: Bytes, members: set<Bytes>)
    requires Count(P) >= 1 && |members| >= Threshold(Count(P)) && r.node.height == 1 && r.node.round == 0
    requires Unanimous(r.node.prevotes, members, 1, 0, PREVOTE, a) && r.node.store.headers == map[a := x]
    ensures Does(P, p, r, LockOnly) == Some((Holding(r, a), None))
  {
    UnanimousQuorum(r.node.prevotes, members, 1, 0, PREVOTE, a, Count(P));
    hide QuorumBlocks, HasQuorum, Unanimous;
    assert Lockable(r.node, 0, Count(P)) == {a};
    FirstOfIs({a}, a);
  }

  /** The replica in the next round, knowing one more header. */
  ghost function MovedOn(r: Replica, y: BlockHeader, b: Bytes): Replica {
    var node := RoundChange(r.node);
    r.(node := node.(store := node.store.(headers := node.store.headers[b := y])))
  }

  lemma StepMove(P: Params, p: Bytes, r: Replica, y: BlockHeader, b: Bytes)
    requires Count(P) >= 1 && BlockHash(P.c, y) == Some(b) && b !in r.node.store.headers
    ensures Does(P, p, r, NextRound) == Some((r.(node := RoundChange(r.node)), None))
    ensures Does(P, p, r.(node := RoundChange(r.node)), GetHeader(y)) == Some((MovedOn(r, y, b), None))
  {
    hide BlockHash;
  }

  lemma StepPrevoteSecond(P: Params, p: Bytes, r: Replica, x: BlockHeader, a: Bytes, y: BlockHeader, b: Bytes)
    requires Count(P) >= 1 && FreeInSecond(r.node, x, a, y, b) && |b| == HASH_SIZE && Slot(1, 1, PREVOTE) !in r.sent
    ensures Does(P, p, r, Prevote(b)).Some?
        && Does(P, p, r, Prevote(b)).value.1 == Some(VoteFor(P, p, 1, 1, PREVOTE, b))
  {
    hide SignedVote, Keep;
  }

  lemma LeavesLock(P: Params, node: Node, members: set<Bytes>, a: Bytes, b: Bytes)
    requires Count(P) >= 1 && |members| >= Threshold(Count(P)) && a != b
    requires node.height == 1 && node.round == 1 && node.lockedHash == Some(a)
    requires Unanimous(node.prevotes, members, 1, 1, PREVOTE, b)
    ensures PrecommitTarget(node, Count(P)) == Some(b)
  {
    UnanimousQuorum(node.prevotes, members, 1, 1, PREVOTE, b, Count(P));
    QuorumBlocksMeans(node.prevotes, 1, 1, PREVOTE, Count(P), a);
    FirstOfIs({b}, b);
    hide QuorumBlocks, HasQuorum, Unanimous;
  }

  /** Every validator changes round and then learns a header. */
  lemma AllMoveOn(P: Params, s: System, group: set<Bytes>, y: BlockHeader, b: Bytes) returns (t: System)
    requires Count(P) >= 1 && BlockHash(P.c, y) == Some(b) && group <= s.replicas.Keys
    requires forall q :: q in group ==> b !in s.replicas[q].node.store.headers
    ensures Leads(P, s, t) && Apart(s, t, group)
    ensures forall q :: q in group ==> t.replicas[q] == MovedOn(s.replicas[q], y, b)
  {
    hide BlockHash, Does, Leads, MovedOn, RoundChange;
    forall q | q in group
      ensures Does(P, q, s.replicas[q], NextRound)
              == Some((s.replicas[q].(node := RoundChange(s.replicas[q].node)), None))
    {
      StepMove(P, q, s.replicas[q], y, b);
    }
    var t1 := EachActs(P, s, group, NextRound);
    forall q | q in group
      ensures Does(P, q, t1.replicas[q], GetHeader(y)) == Some((MovedOn(s.replicas[q], y, b), None))
    {
      assert DidStep(P, q, s.replicas[q], NextRound, t1.replicas[q], t1.log);
      StepMove(P, q, s.replicas[q], y, b);
    }
    t := EachActs(P, t1, group, GetHeader(y));
    forall q | q in group ensures t.replicas[q] == MovedOn(s.replicas[q], y, b) {
      assert DidStep(P, q, t1.replicas[q], GetHeader(y), t.replicas[q], t.log);
    }
    LeadsThen(P, s, t1, t);
  }

  ghost predicate AllCorrect(P: Params, p: Bytes) {
    P.committee.byzantine == {} && p in P.committee.validators
    && |P.committee.validators - {p}| >= Threshold(Count(P))
  }

  lemma OneHearsAndLocks(P: Params, s: System, r: Replica, p: Bytes, x: Block, a: Bytes, members: set<Bytes>)
    returns (t: System)
    requires Count(P) >= 1 && |members| >= Threshold(Count(P)) && p in s.replicas
    requires s.replicas[p] == Prevoted(P, p, r, x, a) && Signed(P, s.log, members, PREVOTE, a)
    ensures Leads(P, s, t) && Apart(s, t, {p}) && t.replicas[p] == Holding(Convinced(P, p, r, x, a, members), a)
  {
    LockedKnows(P, p, r, x, a, members);
    BallotsSigned(P, s.log, members, PREVOTE, a, s.replicas[p], false);
    ConvincedForm(P, p, r, x, a, members);
    ConvincedKnows(P, p, r, x, a, members);
    hide Leads, Does, Signed, Prevoted, Convinced, Hearable, Ballots, VoteFor, Unanimous, Hears, Holding;
    var t1 := EachHears(P, s, {p}, false, Prevotes(P, members, a));
    StepLock(P, p, Convinced(P, p, r, x, a, members), x.header, a, members);
    t := EachActs(P, t1, {p}, LockOnly);
    assert DidStep(P, p, t1.replicas[p], LockOnly, t.replicas[p], t.log);
    LeadsThen(P, s, t1, t);
  }

  lemma EverybodySide(P: Params, s: System, p: Bytes)
    requires Count(P) >= 1 && AllCorrect(P, p) && Init(P, s)
    ensures Side(P, P.committee.validators) && CorrectOf(P, P.committee.validators) == P.committee.validators
    ensures s.replicas.Keys == P.committee.validators
    ensures forall q :: q in P.committee.validators ==> AtStart(P, s.replicas[q])
  {
    SubsetSize(P.committee.validators - {p}, P.committee.validators);
  }

  /** In round 0 everybody prevotes the first block, but only p hears of it and locks. */
  lemma OnlyOneLocks(P: Params, s: System, p: Bytes, x: Block, a: Bytes) returns (t: System)
    requires Count(P) >= 1 && AllCorrect(P, p) && Init(P, s) && BlockHash(P.c, x.header) == Some(a)
    ensures Leads(P, s, t) && t.replicas.Keys == s.replicas.Keys == P.committee.validators
    ensures t.replicas[p] == Holding(Convinced(P, p, s.replicas[p], x, a, P.committee.validators), a)
    ensures forall q :: q in P.committee.validators && q != p ==> t.replicas[q] == Prevoted(P, q, s.replicas[q], x, a)
  {
    var V := P.committee.validators;
    EverybodySide(P, s, p);
    hide BlockHash, Leads, Does, AtStart, Signed, Prevoted, Convinced, Init, Holding;
    var t1 := SidePrevotes(P, s, V, x, a);
    t := OneHearsAndLocks(P, t1, s.replicas[p], p, x, a, V);
    LeadsThen(P, s, t1, t);
  }

  lemma ConvincedForm(P: Params, p: Bytes, r: Replica, x: Block, a: Bytes, members: set<Bytes>)
    ensures Convinced(P, p, r, x, a, members) == Hears(Prevoted(P, p, r, x, a), false, Prevotes(P, members, a))
  {
  }

  lemma ConvincedKnows(P: Params, p: Bytes, r: Replica, x: Block, a: Bytes, members: set<Bytes>)
    ensures var c := Convinced(P, p, r, x, a, members);
            c.node == Node(1, 0, None, None, None, Store(map[a := x.header], map[]), c.node.prevotes, map[])
            && Unanimous(c.node.prevotes, members, 1, 0, PREVOTE, a)
  {
    OwnVoteOnly(P, p, PREVOTE, a);
    var v := VoteFor(P, p, 1, 0, PREVOTE, a);
    HeardEveryone(P, map[KeyOf(v) := v], members, 1, 0, PREVOTE, a);
    hide Ballots, AddAll, VoteFor, Unanimous, KeyOf;
  }

  lemma PrevotedMovesOn(P: Params, q: Bytes, r: Replica, x: Block, a: Bytes, y: BlockHeader, b: Bytes)
    ensures FreeInSecond(MovedOn(Prevoted(P, q, r, x, a), y, b).node, x.header, a, y, b)
    ensures MovedOn(Prevoted(P, q, r, x, a), y, b).sent == {Slot(1, 0, PREVOTE)}
    ensures Prevoted(P, q, r, x, a).node.store.headers == map[a := x.header]
  {
    assert map[a := x.header][b := y] == map[a := x.header, b := y];
    hide VoteFor;
  }

  lemma LockedMovesOn(P: Params, p: Bytes, r: Replica, x: Block, a: Bytes, members: set<Bytes>, y: BlockHeader,
                      b: Bytes)
    ensures LockedOnFirst(MovedOn(Holding(Convinced(P, p, r, x, a, members), a), y, b).node, x.header, a, y, b)
    ensures MovedOn(Holding(Convinced(P, p, r, x, a, members), a), y, b).sent == {Slot(1, 0, PREVOTE)}
    ensures Holding(Convinced(P, p, r, x, a, members), a).node.store.headers == map[a := x.header]
  {
    ConvincedKnows(P, p, r, x, a, members);
    assert Convinced(P, p, r, x, a, members).sent == {Slot(1, 0, PREVOTE)} by {
      hide VoteFor, Ballots, AddAll;
    }
    assert map[a := x.header][b := y] == map[a := x.header, b := y];
    hide Convinced, Unanimous;
  }

  /** In round 1, locked on a since round 0, with a prevote for b of every other validator and no own vote yet. */
  ghost predicate Overtaken(r: Replica, others: set<Bytes>, x: BlockHeader, a: Bytes, y: BlockHeader, b: Bytes) {
    r.node == Node(1, 1, Some(a), Some(0), Some(a), Store(map[a := x, b := y], map[]), r.node.prevotes, map[])
    && Unanimous(r.node.prevotes, others, 1, 1, PREVOTE, b) && r.sent == {Slot(1, 0, PREVOTE)}
  }

  lemma HearingOvertakes(P: Params, r: Replica, others: set<Bytes>, x: BlockHeader, a: Bytes, y: BlockHeader, b: Bytes)
    requires LockedOnFirst(r.node, x, a, y, b) && r.sent == {Slot(1, 0, PREVOTE)}
    ensures Overtaken(Hears(r, false, Ballots(P, others, 1, 1, PREVOTE, b)), others, x, a, y, b)
    ensures b in r.node.store.headers
  {
    HeardEveryone(P, map[], others, 1, 1, PREVOTE, b);
    hide Ballots, AddAll, Unanimous;
  }

  /** The others, who are not locked, prevote b in round 1. */
  lemma OthersSign(P: Params, s: System, others: set<Bytes>, x: BlockHeader, a: Bytes, y: BlockHeader, b: Bytes)
    returns (t: System)
    requires Count(P) >= 1 && others <= s.replicas.Keys && |b| == HASH_SIZE
    requires forall q :: q in others ==>
               FreeInSecond(s.replicas[q].node, x, a, y, b) && s.replicas[q].sent == {Slot(1, 0, PREVOTE)}
    ensures Leads(P, s, t) && Apart(s, t, others)
    ensures forall v :: v in Ballots(P, others, 1, 1, PREVOTE, b) ==> v in t.log && v.block == Some(b)
  {
    forall q | q in others
      ensures Does(P, q, s.replicas[q], Prevote(b)).Some?
      ensures Does(P, q, s.replicas[q], Prevote(b)).value.1 == Some(VoteFor(P, q, 1, 1, PREVOTE, b))
    {
      StepPrevoteSecond(P, q, s.replicas[q], x, a, y, b);
    }
    hide Does, Leads, VoteFor, FreeInSecond, Ballots;
    t := EachActs(P, s, others, Prevote(b));
    forall v | v in Ballots(P, others, 1, 1, PREVOTE, b) ensures v in t.log && v.block == Some(b) {
      BallotsAre(P, others, 1, 1, PREVOTE, b, v);
      var q := v.validatorPubkey;
      assert DidStep(P, q, s.replicas[q], Prevote(b), t.replicas[q], t.log);
      BallotBlock(P, q, b);
    }
  }

  /** In round 1 p hears a quorum of prevotes for b from the others. */
  lemma OthersPrevote(P: Params, s: System, p: Bytes, x: BlockHeader, a: Bytes, y: BlockHeader, b: Bytes)
    returns (t: System)
    requires Count(P) >= 1 && AllCorrect(P, p) && s.replicas.Keys == P.committee.validators
    requires |b| == HASH_SIZE && LockedOnFirst(s.replicas[p].node, x, a, y, b)
    requires s.replicas[p].sent == {Slot(1, 0, PREVOTE)}
    requires forall q :: q in P.committee.validators && q != p ==>
               FreeInSecond(s.replicas[q].node, x, a, y, b) && s.replicas[q].sent == {Slot(1, 0, PREVOTE)}
    ensures Leads(P, s, t) && p in t.replicas
    ensures Overtaken(t.replicas[p], P.committee.validators - {p}, x, a, y, b)
  {
    var others := P.committee.validators - {p};
    var r := s.replicas[p];
    var ballots := Ballots(P, others, 1, 1, PREVOTE, b);
    hide Leads, FreeInSecond, LockedOnFirst, Ballots, Hears, Overtaken;
    HearingOvertakes(P, r, others, x, a, y, b);
    var t1 := OthersSign(P, s, others, x, a, y, b);
    t := EachHears(P, t1, {p}, false, ballots);
    LeadsThen(P, s, t1, t);
  }

  lemma BallotBlock(P: Params, q: Bytes, b: Bytes)
    ensures VoteFor(P, q, 1, 1, PREVOTE, b).block == Some(b)
  {
    SignedVoteFields(SignerOf(P, q), 1, 1, PREVOTE, Some(b));
  }

  /** With every validator correct, four of them say, one of them can be locked on a while all others prevote b. */
  lemma OneIsOvertaken(P: Params, s: System, p: Bytes, x: Block, a: Bytes, y: BlockHeader, b: Bytes) returns (t: System)
    requires Count(P) >= 1 && AllCorrect(P, p) && Init(P, s)
    requires BlockHash(P.c, x.header) == Some(a) && BlockHash(P.c, y) == Some(b) && a != b
    ensures Leads(P, s, t) && p in t.replicas
    ensures Overtaken(t.replicas[p], P.committee.validators - {p}, x.header, a, y, b)
  {
    var V := P.committee.validators;
    assert |b| == HASH_SIZE;
    hide BlockHash, Leads, Init, Convinced, Prevoted, MovedOn, Holding, LockedOnFirst, FreeInSecond, Overtaken;
    var t1 := OnlyOneLocks(P, s, p, x, a);
    forall q | q in V ensures t1.replicas[q].node.store.headers == map[a := x.header] {
      if q == p {
        LockedMovesOn(P, p, s.replicas[p], x, a, V, y, b);
      } else {
        PrevotedMovesOn(P, q, s.replicas[q], x, a, y, b);
      }
    }
    var t2 := AllMoveOn(P, t1, V, y, b);
    LockedMovesOn(P, p, s.replicas[p], x, a, V, y, b);
    forall q | q in V && q != p
      ensures FreeInSecond(t2.replicas[q].node, x.header, a, y, b) && t2.replicas[q].sent == {Slot(1, 0, PREVOTE)}
    {
      PrevotedMovesOn(P, q, s.replicas[q], x, a, y, b);
    }
    t := OthersPrevote(P, t2, p, x.header, a, y, b);
    LeadsThen(P, s, t1, t2);
    LeadsThen(P, s, t2, t);
  }

  /** There is a run with only correct validators after which a validator is locked on a while `make_precommit` alone
      would have it precommit b. */
  lemma PrecommitMayLeaveTheLock(P: Params, s: System, p: Bytes, x: Block, a: Bytes, y: BlockHeader, b: Bytes)
    returns (steps: seq<Step>)
    requires Count(P) >= 1 && AllCorrect(P, p) && Init(P, s)
    requires BlockHash(P.c, x.header) == Some(a) && BlockHash(P.c, y) == Some(b) && a != b
    ensures Reach(P, s, steps).Some? && p in Reach(P, s, steps).value.replicas
    ensures var node := Reach(P, s, steps).value.replicas[p].node;
            node.lockedHash == Some(a) && PrecommitTarget(node, Count(P)) == Some(b)
  {
    hide BlockHash, Leads, Reach, Init, PrecommitTarget, Unanimous;
    var t := OneIsOvertaken(P, s, p, x, a, y, b);
    LeavesLock(P, t.replicas[p].node, P.committee.validators - {p}, a, b);
    steps := Path(P, s, t);
  }

  lemma StepReleased(P: Params, p: Bytes, r: Replica, others: set<Bytes>, x: BlockHeader, a: Bytes, y: BlockHeader,
                     b: Bytes)
    requires Count(P) >= 1 && |others| >= Threshold(Count(P)) && |b| == HASH_SIZE && Overtaken(r, others, x, a, y, b)
    ensures Does(P, p, r, Prevote(b)).Some?
    ensures Does(P, p, r, Prevote(b)).value.1 == Some(VoteFor(P, p, 1, 1, PREVOTE, b))
    ensures Does(P, p, r, Prevote(b)).value.0.node.lockedHash == Some(a)
  {
    UnanimousQuorum(r.node.prevotes, others, 1, 1, PREVOTE, b, Count(P));
    hide SignedVote, Keep, Unanimous, HasQuorum, QuorumBlocks;
    assert LaterQuorum(r.node, b, Count(P));
  }

  /** The release from a lock happens: there is a run with only correct validators in which one that is locked on a, and
      stays so, prevotes b. */
  lemma LockedPrevotesAnother(P: Params, s: System, p: Bytes, x: Block, a: Bytes, y: BlockHeader, b: Bytes)
    returns (steps: seq<Step>, v: Vote)
    requires Count(P) >= 1 && AllCorrect(P, p) && Init(P, s)
    requires BlockHash(P.c, x.header) == Some(a) && BlockHash(P.c, y) == Some(b) && a != b
    ensures Reach(P, s, steps).Some? && p in Reach(P, s, steps).value.replicas
    ensures Reach(P, s, steps).value.replicas[p].node.lockedHash == Some(a)
    ensures v in Reach(P, s, steps).value.log && v.validatorPubkey == p && v.phase == PREVOTE && v.block == Some(b)
  {
    assert |b| == HASH_SIZE;
    hide BlockHash, Leads, Reach, Init, Does, Overtaken;
    var t := OneIsOvertaken(P, s, p, x, a, y, b);
    StepReleased(P, p, t.replicas[p], P.committee.validators - {p}, x.header, a, y, b);
    var u := ActsOnce(P, t, p, Prevote(b));
    LeadsThen(P, s, t, u);
    v := VoteFor(P, p, 1, 1, PREVOTE, b);
    SignedVoteFields(SignerOf(P, p), 1, 1, PREVOTE, Some(b));
    steps := Path(P, s, u);
  }
}
