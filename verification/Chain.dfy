/** The chain as a whole: what a ledger grown by committing blocks looks like, what it says about the past,
    and why two such ledgers cannot disagree below a common block hash. */
module Chain {
  import opened Wrappers
  import opened Ordering
  import opened Crypto
  import opened Transactions
  import opened Blocks
  import opened States
  import opened Executor
  import opened Bodies
  import opened Ledgers

  datatype Block = Block(header: BlockHeader, body: seq<Transaction>)

  datatype CommitOutcome =
    | Committed(entry: LedgerEntry) | ParentNotFinalized | BodyInvalid(verdict: Verdict)
    | BodyRaises | LedgerRaises(error: LedgerError)

  /** The state and nonces on top of which a block of the given height is executed. */
  ghost function ParentOf(entries: Entries, height: int): Option<(Contents, Nonces)> {
    if height - 1 == 0 then Some((map[], map[]))
    else if height - 1 in entries then Some((entries[height - 1].state, entries[height - 1].nonces))
    else None
  }

  /** The second half of `try_finalize`: re-validate the body on its parent and append the block. */
  ghost function Commit(c: Primitives, cfg: ExecutionConfig, L: LedgerState, block: Block, fault: Fault)
    : (LedgerState, CommitOutcome)
  {
    match ParentOf(L.entries, block.header.height)
    case None => (L, ParentNotFinalized)
    case Some(parent) =>
      match ValidateBody(c, cfg, block.header, block.body, parent.0, parent.1)
      case BodyRaised => (L, BodyRaises)
      case Valid(state, nonces, ids) =>
        (var (L', r) := Finalize(c, L, block.header, ids, state, nonces, fault);
         match r
         case Ok(entry) => (L', Committed(entry))
         case Err(e) => (L', LedgerRaises(e)))
      case verdict => (L, BodyInvalid(verdict))
  }

  // ---------- histories ----------

  ghost function StateAfter(prev: Option<LedgerEntry>): Contents {
    match prev case None => map[] case Some(e) => e.state
  }

  ghost function NoncesAfter(prev: Option<LedgerEntry>): Nonces {
    match prev case None => map[] case Some(e) => e.nonces
  }

  /** e records the given block executed on prev. */
  ghost predicate Link(c: Primitives, cfg: ExecutionConfig, chainId: Bytes, prev: Option<LedgerEntry>,
                       block: Block, e: LedgerEntry, height: int) {
    && e.height == height == block.header.height && e.header == block.header
    && block.header.chainId == chainId
    && BlockHash(c, block.header) == Some(e.blockHash)
    && (prev.Some? ==> block.header.parentHash == prev.value.blockHash)
    && ValidateBody(c, cfg, block.header, block.body, StateAfter(prev), NoncesAfter(prev))
         == Valid(e.state, e.nonces, e.appliedTxIds)
  }

  ghost function Prev(H: seq<LedgerEntry>, i: nat): Option<LedgerEntry>
    requires i <= |H|
  {
    if i == 0 then None else Some(H[i - 1])
  }

  /** H is the chain of entries that the given blocks produce from genesis; entry i has height i + 1. */
  ghost predicate History(c: Primitives, cfg: ExecutionConfig, chainId: Bytes, H: seq<LedgerEntry>,
                          blocks: seq<Block>) {
    |H| == |blocks| && forall i :: 0 <= i < |H| ==> Link(c, cfg, chainId, Prev(H, i), blocks[i], H[i], i + 1)
  }

  /** The stored entries are the part of the history from height lo up to the head: contiguous, ending
      at the finalized height. A ledger that never restarted has lo == 1. */
  ghost predicate Window(entries: Entries, H: seq<LedgerEntry>, lo: int) {
    1 <= lo && (H == [] ==> lo == 1) && (H != [] ==> lo <= |H|)
    && (forall h :: h in entries <==> lo <= h <= |H|)
    && (forall h :: lo <= h <= |H| ==> entries[h] == H[h - 1])
  }

  lemma WindowHead(entries: Entries, H: seq<LedgerEntry>, lo: int)
    requires Window(entries, H, lo)
    ensures FinalizedHeight(entries) == |H| && Head(entries) == Prev(H, |H|)
  {
    if H != [] {
      assert |H| in entries;
      assert IsMax(|H|, entries.Keys);
    } else {
      assert forall h :: h !in entries;
      assert entries == map[];
    }
  }

  lemma WindowParent(entries: Entries, H: seq<LedgerEntry>, lo: int)
    requires Window(entries, H, lo)
    ensures ParentOf(entries, |H| + 1) == Some((StateAfter(Prev(H, |H|)), NoncesAfter(Prev(H, |H|))))
  {
    if H != [] {
      assert |H| in entries;
    }
  }

  lemma LinkAt(c: Primitives, cfg: ExecutionConfig, chainId: Bytes, H: seq<LedgerEntry>, blocks: seq<Block>, i: nat)
    requires History(c, cfg, chainId, H, blocks) && i < |H|
    ensures |H| == |blocks| && Link(c, cfg, chainId, Prev(H, i), blocks[i], H[i], i + 1)
  {
    hide Link;
  }

  lemma HistoryExtends(c: Primitives, cfg: ExecutionConfig, chainId: Bytes, H: seq<LedgerEntry>, blocks: seq<Block>,
                       block: Block, e: LedgerEntry)
    requires History(c, cfg, chainId, H, blocks)
    requires Link(c, cfg, chainId, Prev(H, |H|), block, e, |H| + 1)
    ensures History(c, cfg, chainId, H + [e], blocks + [block])
  {
    hide Link;
    var H', blocks' := H + [e], blocks + [block];
    forall i | 0 <= i < |H'| ensures Link(c, cfg, chainId, Prev(H', i), blocks'[i], H'[i], i + 1) {
      assert Prev(H', i) == Prev(H, i);
      if i < |H| {
        assert Link(c, cfg, chainId, Prev(H, i), blocks[i], H[i], i + 1);
      }
    }
  }

  lemma HistoryPrefix(c: Primitives, cfg: ExecutionConfig, chainId: Bytes, H: seq<LedgerEntry>, blocks: seq<Block>,
                      n: nat)
    requires History(c, cfg, chainId, H, blocks) && n <= |H|
    ensures History(c, cfg, chainId, H[..n], blocks[..n])
  {
    hide Link;
    forall i | 0 <= i < n ensures Link(c, cfg, chainId, Prev(H[..n], i), blocks[..n][i], H[..n][i], i + 1) {
      assert Prev(H[..n], i) == Prev(H, i);
      assert Link(c, cfg, chainId, Prev(H, i), blocks[i], H[i], i + 1);
    }
  }

  lemma FinalizeMeans(c: Primitives, L: LedgerState, header: BlockHeader, ids: seq<Bytes>, state: Contents,
                      nonces: Nonces, fault: Fault)
    requires Finalize(c, L, header, ids, state, nonces, fault).1.Ok?
    ensures var (L', r) := Finalize(c, L, header, ids, state, nonces, fault);
            NewEntry(c, L.chainId, L.entries, header, ids, state, nonces) == r
            && L'.entries == L.entries[header.height := r.value]
  {
    hide NewEntry, Persisted;
  }

  lemma NewEntryMeans(c: Primitives, chainId: Bytes, entries: Entries, header: BlockHeader, ids: seq<Bytes>,
                      state: Contents, nonces: Nonces, H: seq<LedgerEntry>, lo: int)
    requires Window(entries, H, lo) && NewEntry(c, chainId, entries, header, ids, state, nonces).Ok?
    ensures var e := NewEntry(c, chainId, entries, header, ids, state, nonces).value;
            header.height == |H| + 1 && header.chainId == chainId
            && e == LedgerEntry(|H| + 1, e.blockHash, header, ids, state, nonces)
            && BlockHash(c, header) == Some(e.blockHash)
            && (H != [] ==> header.parentHash == H[|H| - 1].blockHash)
  {
    hide BlockHash;
    WindowHead(entries, H, lo);
    hide FinalizedHeight;
  }

  /** What a commit that succeeds has validated and finalized. */
  lemma CommitMeans(c: Primitives, cfg: ExecutionConfig, L: LedgerState, block: Block, fault: Fault)
    returns (parent: (Contents, Nonces), valid: Verdict)
    requires Commit(c, cfg, L, block, fault).1.Committed?
    ensures ParentOf(L.entries, block.header.height) == Some(parent)
    ensures valid.Valid? && valid == ValidateBody(c, cfg, block.header, block.body, parent.0, parent.1)
    ensures Finalize(c, L, block.header, valid.ids, valid.state, valid.nonces, fault)
            == (Commit(c, cfg, L, block, fault).0, Ok(Commit(c, cfg, L, block, fault).1.entry))
  {
    hide ValidateBody, ParentOf, Finalize;
    parent := ParentOf(L.entries, block.header.height).value;
    valid := ValidateBody(c, cfg, block.header, block.body, parent.0, parent.1);
  }

  /** The entry a commit would append links to the head; every other commit is refused. */
  lemma CommitLinks(c: Primitives, cfg: ExecutionConfig, L: LedgerState, block: Block, fault: Fault,
                    H: seq<LedgerEntry>, lo: int)
    requires Window(L.entries, H, lo)
    ensures var (L', out) := Commit(c, cfg, L, block, fault);
            out.Committed? ==> Link(c, cfg, L.chainId, Prev(H, |H|), block, out.entry, |H| + 1)
                               && L'.entries == L.entries[|H| + 1 := out.entry]
    ensures var (L', out) := Commit(c, cfg, L, block, fault);
            !out.Committed? ==> L'.entries == L.entries
    ensures var (L', out) := Commit(c, cfg, L, block, fault);
            L'.chainId == L.chainId && L'.stored == L.stored
  {
    CommitKeepsRest(c, cfg, L, block, fault);
    hide Commit, BlockHash, ValidateBody, Window, ParentOf, Finalize, NewEntry;
    if Commit(c, cfg, L, block, fault).1.Committed? {
      var parent, valid := CommitMeans(c, cfg, L, block, fault);
      WindowParent(L.entries, H, lo);
      FinalizeMeans(c, L, block.header, valid.ids, valid.state, valid.nonces, fault);
      NewEntryMeans(c, L.chainId, L.entries, block.header, valid.ids, valid.state, valid.nonces, H, lo);
    }
  }

  lemma CommitKeepsRest(c: Primitives, cfg: ExecutionConfig, L: LedgerState, block: Block, fault: Fault)
    ensures var (L', out) := Commit(c, cfg, L, block, fault);
            !out.Committed? ==> L'.entries == L.entries
    ensures var (L', out) := Commit(c, cfg, L, block, fault);
            L'.chainId == L.chainId && L'.stored == L.stored
  {
    hide BlockHash, ValidateBody, NewEntry, ParentOf, Persisted;
  }

  lemma WindowExtends(entries: Entries, H: seq<LedgerEntry>, lo: int, e: LedgerEntry)
    requires Window(entries, H, lo)
    ensures Window(entries[|H| + 1 := e], H + [e], lo)
  {
  }

  // ---------- ledgers grown by committing ----------

  datatype Attempt = Attempt(block: Block, fault: Fault)

  /** One commit; when it crashes the node restarts from its snapshot. */
  ghost function Try(c: Primitives, cfg: ExecutionConfig, L: LedgerState, a: Attempt): LedgerState {
    var (L', out) := Commit(c, cfg, L, a.block, a.fault);
    if out == LedgerRaises(Crashed) then Restart(c, L') else L'
  }

  /** The ledger after any sequence of attempts, starting empty. */
  ghost function Grow(c: Primitives, cfg: ExecutionConfig, chainId: Bytes, stored: bool,
                      attempts: seq<Attempt>): LedgerState {
    if attempts == [] then LedgerState(chainId, map[], stored, None)
    else Try(c, cfg, Grow(c, cfg, chainId, stored, attempts[..|attempts| - 1]), attempts[|attempts| - 1])
  }

  /** Keys of the state are namespaced, so never empty. */
  lemma {:induction false} NoEmptyKey(c: Primitives, cfg: ExecutionConfig, txs: seq<Transaction>, state: Contents,
                                      nonces: Nonces)
    requires Execute(c, cfg, txs, state, nonces).Success? && [] !in state
    ensures [] !in Execute(c, cfg, txs, state, nonces).state
  {
    hide TxId, Validate;
    if txs != [] {
      var n := |txs| - 1;
      NoEmptyKey(c, cfg, txs[..n], state, nonces);
      var out := Execute(c, cfg, txs[..n], state, nonces);
      ValidKeyIsNotEmpty(c, txs[n], cfg, NonceOf(out.nonces, txs[n].senderPubkey));
    }
  }

  /** A ledger together with the history it stands for. */
  ghost predicate Healthy(c: Primitives, cfg: ExecutionConfig, L: LedgerState, H: seq<LedgerEntry>,
                          blocks: seq<Block>, lo: int) {
    && History(c, cfg, L.chainId, H, blocks) && Window(L.entries, H, lo)
    && [] !in StateAfter(Prev(H, |H|))
    && (if L.stored then Synced(c, L) else L.snapshot == None)
  }

  lemma LinkIsSound(c: Primitives, cfg: ExecutionConfig, chainId: Bytes, prev: Option<LedgerEntry>, block: Block,
                    e: LedgerEntry, height: int)
    requires Link(c, cfg, chainId, prev, block, e, height) && [] !in StateAfter(prev)
    ensures Sound(c, chainId, e) && [] !in e.state
  {
    hide BlockHash, ValidateBody, Execute;
    ValidMeans(c, cfg, block.header, block.body, StateAfter(prev), NoncesAfter(prev));
    NoEmptyKey(c, cfg, block.body, StateAfter(prev), NoncesAfter(prev));
  }

  /** The block appended by an attempt, if any: also when the node crashed after the snapshot was replaced. */
  lemma TryStaysHealthy(c: Primitives, cfg: ExecutionConfig, L: LedgerState, a: Attempt, H: seq<LedgerEntry>,
                        blocks: seq<Block>, lo: int) returns (H': seq<LedgerEntry>, blocks': seq<Block>, lo': int)
    requires Healthy(c, cfg, L, H, blocks, lo)
    ensures Healthy(c, cfg, Try(c, cfg, L, a), H', blocks', lo')
    ensures Try(c, cfg, L, a).chainId == L.chainId && Try(c, cfg, L, a).stored == L.stored
    ensures blocks' == blocks || blocks' == blocks + [a.block] || (!L.stored && blocks' == [])
    ensures Commit(c, cfg, L, a.block, a.fault).1 != LedgerRaises(Crashed) ==> lo' == lo
  {
    hide Commit, History, Link, Synced, Sound, Load, SnapshotOf;
    var (L', out) := Commit(c, cfg, L, a.block, a.fault);
    CommitLinks(c, cfg, L, a.block, a.fault, H, lo);
    if out.Committed? {
      H', blocks', lo' := H + [out.entry], blocks + [a.block], lo;
      HistoryExtends(c, cfg, L.chainId, H, blocks, a.block, out.entry);
      WindowExtends(L.entries, H, lo, out.entry);
      LinkIsSound(c, cfg, L.chainId, Prev(H, |H|), a.block, out.entry, |H| + 1);
      CommittedStaysSynced(c, cfg, L, a, H, lo);
      assert Prev(H', |H'|) == Some(out.entry);
    } else if out == LedgerRaises(Crashed) {
      H', blocks', lo' := CrashStaysHealthy(c, cfg, L, a, H, blocks, lo);
    } else {
      H', blocks', lo' := H, blocks, lo;
      FailureStaysSynced(c, cfg, L, a, H, lo);
    }
  }

  lemma CommittedStaysSynced(c: Primitives, cfg: ExecutionConfig, L: LedgerState, a: Attempt, H: seq<LedgerEntry>,
                             lo: int)
    requires Window(L.entries, H, lo) && Commit(c, cfg, L, a.block, a.fault).1.Committed?
    requires if L.stored then Synced(c, L) else L.snapshot == None
    requires Sound(c, L.chainId, Commit(c, cfg, L, a.block, a.fault).1.entry)
    ensures var L' := Commit(c, cfg, L, a.block, a.fault).0;
            if L.stored then Synced(c, L') else L'.snapshot == None
  {
    hide BlockHash, ValidateBody, SnapshotOf;
    var (L', out) := Commit(c, cfg, L, a.block, a.fault);
    WindowHead(L.entries, H, lo);
    AppendMovesHead(L.entries, |H| + 1, out.entry);
  }

  lemma FailureStaysSynced(c: Primitives, cfg: ExecutionConfig, L: LedgerState, a: Attempt, H: seq<LedgerEntry>,
                           lo: int)
    requires Window(L.entries, H, lo)
    requires var out := Commit(c, cfg, L, a.block, a.fault).1; !out.Committed? && out != LedgerRaises(Crashed)
    ensures Commit(c, cfg, L, a.block, a.fault).0 == L
  {
    hide BlockHash, ValidateBody, SnapshotOf;
    WindowHead(L.entries, H, lo);
  }

  /** What a crashed commit left on disk: the old snapshot, or that of the entry it was appending. */
  lemma CrashedCommit(c: Primitives, cfg: ExecutionConfig, L: LedgerState, a: Attempt, H: seq<LedgerEntry>, lo: int)
    returns (e: LedgerEntry)
    requires Window(L.entries, H, lo) && Commit(c, cfg, L, a.block, a.fault).1 == LedgerRaises(Crashed)
    ensures Link(c, cfg, L.chainId, Prev(H, |H|), a.block, e, |H| + 1)
    ensures var L' := Commit(c, cfg, L, a.block, a.fault).0;
            L'.entries == L.entries && L'.chainId == L.chainId && L'.stored == L.stored
            && (L'.snapshot == L.snapshot || (L.stored && L'.snapshot == Some(SnapshotOf(e))))
  {
    hide BlockHash, SnapshotOf, ValidateBody;
    WindowHead(L.entries, H, lo);
    WindowParent(L.entries, H, lo);
    if H != [] {
      assert |H| in L.entries;
    }
    var verdict := ValidateBody(c, cfg, a.block.header, a.block.body,
                                StateAfter(Prev(H, |H|)), NoncesAfter(Prev(H, |H|)));
    e := NewEntry(c, L.chainId, L.entries, a.block.header, verdict.ids, verdict.state, verdict.nonces).value;
  }

  lemma OnlyWindow(H: seq<LedgerEntry>)
    requires H != [] ==> H[|H| - 1].height == |H|
    ensures Window(Only(Prev(H, |H|)), H, if H == [] then 1 else |H|)
  {
  }

  lemma HeadHeight(c: Primitives, cfg: ExecutionConfig, chainId: Bytes, H: seq<LedgerEntry>, blocks: seq<Block>)
    requires History(c, cfg, chainId, H, blocks)
    ensures H != [] ==> H[|H| - 1].height == |H|
  {
    hide ValidateBody, BlockHash;
    if H != [] {
      assert Link(c, cfg, chainId, Prev(H, |H| - 1), blocks[|H| - 1], H[|H| - 1], |H|);
    }
  }

  lemma CrashStaysHealthy(c: Primitives, cfg: ExecutionConfig, L: LedgerState, a: Attempt, H: seq<LedgerEntry>,
                          blocks: seq<Block>, lo: int) returns (H': seq<LedgerEntry>, blocks': seq<Block>, lo': int)
    requires Healthy(c, cfg, L, H, blocks, lo) && Commit(c, cfg, L, a.block, a.fault).1 == LedgerRaises(Crashed)
    ensures var next := Restart(c, Commit(c, cfg, L, a.block, a.fault).0);
            Healthy(c, cfg, next, H', blocks', lo') && next.chainId == L.chainId && next.stored == L.stored
    ensures blocks' == blocks || blocks' == blocks + [a.block] || (!L.stored && blocks' == [])
  {
    hide Commit, Link, History, Sound, SnapshotOf;
    var e := CrashedCommit(c, cfg, L, a, H, lo);
    LinkIsSound(c, cfg, L.chainId, Prev(H, |H|), a.block, e, |H| + 1);
    WindowHead(L.entries, H, lo);
    var L' := Commit(c, cfg, L, a.block, a.fault).0;
    if !L.stored {
      H', blocks', lo' := [], [], 1;
      EmptyHistory(c, cfg, L.chainId);
    } else if L'.snapshot == L.snapshot {
      H', blocks' := H, blocks;
      lo' := if H == [] then 1 else |H|;
      LoadHead(c, L);
      HeadHeight(c, cfg, L.chainId, H, blocks);
      OnlyWindow(H);
      if H != [] { OnlyHead(H[|H| - 1]); }
    } else {
      H', blocks', lo' := H + [e], blocks + [a.block], |H| + 1;
      HistoryExtends(c, cfg, L.chainId, H, blocks, a.block, e);
      HeadHeight(c, cfg, L.chainId, H', blocks');
      LoadRestores(c, L.chainId, e);
      OnlyWindow(H');
      OnlyHead(e);
      assert Prev(H', |H'|) == Some(e);
    }
  }

  lemma EmptyHistory(c: Primitives, cfg: ExecutionConfig, chainId: Bytes)
    ensures History(c, cfg, chainId, [], [])
  {
  }

  ghost predicate FromAttempts(blocks: seq<Block>, attempts: seq<Attempt>) {
    forall b :: b in blocks ==> exists i :: 0 <= i < |attempts| && attempts[i].block == b
  }

  /** Ledger validity, over every run of commits, failed writes, crashes and restarts: the stored entries are
      a contiguous window, ending at the finalized height, of one hash-linked history of attempted blocks. */
  lemma {:induction false} GrownLedgersAreChains(c: Primitives, cfg: ExecutionConfig, chainId: Bytes, stored: bool,
                                                 attempts: seq<Attempt>)
    returns (H: seq<LedgerEntry>, blocks: seq<Block>, lo: int)
    ensures Healthy(c, cfg, Grow(c, cfg, chainId, stored, attempts), H, blocks, lo)
    ensures Grow(c, cfg, chainId, stored, attempts).chainId == chainId
    ensures Grow(c, cfg, chainId, stored, attempts).stored == stored
    ensures FromAttempts(blocks, attempts)
  {
    hide Try, History;
    if attempts == [] {
      H, blocks, lo := [], [], 1;
      EmptyHistory(c, cfg, chainId);
    } else {
      var n := |attempts| - 1;
      H, blocks, lo := GrownLedgersAreChains(c, cfg, chainId, stored, attempts[..n]);
      var before := blocks;
      H, blocks, lo := TryStaysHealthy(c, cfg, Grow(c, cfg, chainId, stored, attempts[..n]), attempts[n],
                                       H, blocks, lo);
      forall b | b in blocks ensures exists i :: 0 <= i < |attempts| && attempts[i].block == b {
        if b in before {
          var i :| 0 <= i < n && attempts[..n][i].block == b;
          assert attempts[i].block == b;
        } else {
          assert attempts[n].block == b;
        }
      }
    }
  }

  // ---------- replay from genesis ----------

  /** All bodies executed in order from the empty state. */
  ghost function Replay(c: Primitives, cfg: ExecutionConfig, blocks: seq<Block>): (Contents, Nonces) {
    if blocks == [] then (map[], map[])
    else
      var (s, ns) := Replay(c, cfg, blocks[..|blocks| - 1]);
      match Execute(c, cfg, blocks[|blocks| - 1].body, s, ns)
      case Success(s', ns', _) => (s', ns')
      case _ => (s, ns)
  }

  lemma {:induction false} HeadReplays(c: Primitives, cfg: ExecutionConfig, chainId: Bytes, H: seq<LedgerEntry>,
                                       blocks: seq<Block>)
    requires History(c, cfg, chainId, H, blocks)
    ensures Replay(c, cfg, blocks) == (StateAfter(Prev(H, |H|)), NoncesAfter(Prev(H, |H|)))
  {
    hide ValidateBody, BlockHash, Execute;
    if H != [] {
      var n := |H| - 1;
      HistoryPrefix(c, cfg, chainId, H, blocks, n);
      HeadReplays(c, cfg, chainId, H[..n], blocks[..n]);
      assert Prev(H[..n], n) == Prev(H, n);
      assert Link(c, cfg, chainId, Prev(H, n), blocks[n], H[n], n + 1);
      ValidMeans(c, cfg, blocks[n].header, blocks[n].body, StateAfter(Prev(H, n)), NoncesAfter(Prev(H, n)));
    }
  }

  /** Every entry holds the state and nonces of replaying all bodies up to it from genesis. */
  lemma HistoryReplays(c: Primitives, cfg: ExecutionConfig, chainId: Bytes, H: seq<LedgerEntry>, blocks: seq<Block>)
    requires History(c, cfg, chainId, H, blocks)
    ensures |H| == |blocks|
    ensures forall i :: 0 <= i < |H| ==> Replay(c, cfg, blocks[..i + 1]) == (H[i].state, H[i].nonces)
  {
    hide History, Replay;
    forall i | 0 <= i < |H| ensures |H| == |blocks| && Replay(c, cfg, blocks[..i + 1]) == (H[i].state, H[i].nonces) {
      HistorySize(c, cfg, chainId, H, blocks);
      HistoryPrefix(c, cfg, chainId, H, blocks, i + 1);
      HeadReplays(c, cfg, chainId, H[..i + 1], blocks[..i + 1]);
    }
    HistorySize(c, cfg, chainId, H, blocks);
  }

  lemma HistorySize(c: Primitives, cfg: ExecutionConfig, chainId: Bytes, H: seq<LedgerEntry>, blocks: seq<Block>)
    requires History(c, cfg, chainId, H, blocks)
    ensures |H| == |blocks|
  {
    hide Link;
  }

  // ---------- one hash, one history ----------

  /** The hash inputs of the blocks: signed headers, identifier preimages, root payloads. */
  ghost predicate BlocksCovered(c: Primitives, blocks: seq<Block>, inputs: set<Bytes>) {
    forall b :: b in blocks ==>
      (Blocks.SignedBytes(b.header).Some? ==> Blocks.SignedBytes(b.header).value in inputs)
      && BodyCovered(c, b.body, inputs)
  }

  /** The hash links of a history. */
  lemma HashLinks(c: Primitives, cfg: ExecutionConfig, chainId: Bytes, H: seq<LedgerEntry>, blocks: seq<Block>, i: nat)
    requires History(c, cfg, chainId, H, blocks) && i < |H|
    ensures |H| == |blocks| && BlockHash(c, blocks[i].header) == Some(H[i].blockHash)
    ensures i > 0 ==> blocks[i].header.parentHash == H[i - 1].blockHash
  {
    hide ValidateBody, BlockHash;
    assert Link(c, cfg, chainId, Prev(H, i), blocks[i], H[i], i + 1);
  }

  lemma HeaderCovered(c: Primitives, blocks: seq<Block>, inputs: set<Bytes>, i: nat)
    requires BlocksCovered(c, blocks, inputs) && i < |blocks| && BlockHash(c, blocks[i].header).Some?
    ensures Blocks.SignedBytes(blocks[i].header).Some? && Blocks.SignedBytes(blocks[i].header).value in inputs
  {
    hide BodyCovered;
    assert blocks[i] in blocks;
    HashedIsEncodable(c, blocks[i].header);
  }

  lemma BodyCoveredAt(c: Primitives, blocks: seq<Block>, inputs: set<Bytes>, i: nat)
    requires BlocksCovered(c, blocks, inputs) && i < |blocks|
    ensures BodyCovered(c, blocks[i].body, inputs)
  {
    hide BodyCovered;
    assert blocks[i] in blocks;
  }

  /** Equal hashes at one height force equal headers at every height below. */
  lemma {:induction false} SameHeadersBelow(c: Primitives, cfg: ExecutionConfig, chainId: Bytes,
                                            H: seq<LedgerEntry>, a: seq<Block>, G: seq<LedgerEntry>, b: seq<Block>,
                                            inputs: set<Bytes>, h: nat, i: nat)
    requires History(c, cfg, chainId, H, a) && History(c, cfg, chainId, G, b)
    requires CollisionFree(c, inputs) && BlocksCovered(c, a, inputs) && BlocksCovered(c, b, inputs)
    requires i <= h < |H| && h < |G| && H[h].blockHash == G[h].blockHash
    ensures |H| == |a| && |G| == |b| && a[i].header == b[i].header && H[i].blockHash == G[i].blockHash
    decreases h - i
  {
    hide *;
    HashLinks(c, cfg, chainId, H, a, i);
    HashLinks(c, cfg, chainId, G, b, i);
    if i < h {
      SameHeadersBelow(c, cfg, chainId, H, a, G, b, inputs, h, i + 1);
      HashLinks(c, cfg, chainId, H, a, i + 1);
      HashLinks(c, cfg, chainId, G, b, i + 1);
    }
    HeaderCovered(c, a, inputs, i);
    HeaderCovered(c, b, inputs, i);
    BlockHashCommits(c, a[i].header, b[i].header, inputs);
  }

  lemma HashedIsEncodable(c: Primitives, h: BlockHeader)
    requires BlockHash(c, h).Some?
    ensures Blocks.SignedBytes(h).Some?
  {
  }

  /** On the same parent, a header admits one body and one entry. */
  lemma LinkIsUnique(c: Primitives, cfg: ExecutionConfig, chainId: Bytes, prev: Option<LedgerEntry>,
                     x: Block, e: LedgerEntry, y: Block, f: LedgerEntry, height: int, inputs: set<Bytes>)
    requires Link(c, cfg, chainId, prev, x, e, height) && Link(c, cfg, chainId, prev, y, f, height)
    requires x.header == y.header
    requires CollisionFree(c, inputs) && BodyCovered(c, x.body, inputs) && BodyCovered(c, y.body, inputs)
    ensures x == y && e == f
  {
    hide ValidateBody, BlockHash, BodyCovered, TxRoot, Execute;
    ValidMeans(c, cfg, x.header, x.body, StateAfter(prev), NoncesAfter(prev));
    ValidMeans(c, cfg, y.header, y.body, StateAfter(prev), NoncesAfter(prev));
    TxRootCommits(c, x.body, y.body, inputs);
  }

  /** Two histories that agree on one block hash agree on every block and entry up to it. */
  lemma {:induction false} SameHashSameHistory(c: Primitives, cfg: ExecutionConfig, chainId: Bytes,
                                               H: seq<LedgerEntry>, a: seq<Block>, G: seq<LedgerEntry>, b: seq<Block>,
                                               inputs: set<Bytes>, h: nat, i: nat)
    requires History(c, cfg, chainId, H, a) && History(c, cfg, chainId, G, b)
    requires CollisionFree(c, inputs) && BlocksCovered(c, a, inputs) && BlocksCovered(c, b, inputs)
    requires i <= h < |H| && h < |G| && H[h].blockHash == G[h].blockHash
    ensures |H| == |a| && |G| == |b| && a[i] == b[i] && H[i] == G[i]
    decreases i
  {
    hide History, Link, BlockHash, BlocksCovered, BodyCovered, CollisionFree;
    if i > 0 {
      SameHashSameHistory(c, cfg, chainId, H, a, G, b, inputs, h, i - 1);
    }
    SameHeadersBelow(c, cfg, chainId, H, a, G, b, inputs, h, i);
    assert Prev(H, i) == Prev(G, i);
    LinkAt(c, cfg, chainId, H, a, i);
    LinkAt(c, cfg, chainId, G, b, i);
    BodyCoveredAt(c, a, inputs, i);
    BodyCoveredAt(c, b, inputs, i);
    LinkIsUnique(c, cfg, chainId, Prev(H, i), a[i], H[i], b[i], G[i], i + 1, inputs);
  }

  ghost predicate AttemptsCovered(c: Primitives, attempts: seq<Attempt>, inputs: set<Bytes>) {
    forall i :: 0 <= i < |attempts| ==> BlocksCovered(c, [attempts[i].block], inputs)
  }

  lemma CoveredBlocks(c: Primitives, blocks: seq<Block>, attempts: seq<Attempt>, inputs: set<Bytes>)
    requires FromAttempts(blocks, attempts) && AttemptsCovered(c, attempts, inputs)
    ensures BlocksCovered(c, blocks, inputs)
  {
    hide BodyCovered, Blocks.SignedBytes;
    forall b | b in blocks
      ensures (Blocks.SignedBytes(b.header).Some? ==> Blocks.SignedBytes(b.header).value in inputs)
      ensures BodyCovered(c, b.body, inputs)
    {
      var i :| 0 <= i < |attempts| && attempts[i].block == b;
      assert BlocksCovered(c, [attempts[i].block], inputs);
      assert b in [attempts[i].block];
    }
  }

  /** Replicated state: two ledgers grown from empty, each with its own attempts, failures and restarts, that
      hold the same block hash at a height hold equal entries (block, identifiers, state and nonces) at every
      height up to it that both still store. Nonces are not in the header, and agree all the same. */
  lemma ReplicatedState(c: Primitives, cfg: ExecutionConfig, chainId: Bytes, stored: bool, as1: seq<Attempt>,
                        stored2: bool, as2: seq<Attempt>, inputs: set<Bytes>, h: int)
    requires CollisionFree(c, inputs) && AttemptsCovered(c, as1, inputs) && AttemptsCovered(c, as2, inputs)
    requires var E, F := Grow(c, cfg, chainId, stored, as1).entries, Grow(c, cfg, chainId, stored2, as2).entries;
             h in E && h in F && E[h].blockHash == F[h].blockHash
    ensures var E, F := Grow(c, cfg, chainId, stored, as1).entries, Grow(c, cfg, chainId, stored2, as2).entries;
            forall i :: i <= h && i in E && i in F ==> E[i] == F[i]
  {
    hide Grow, History, BlocksCovered, AttemptsCovered;
    var H, a, lo := GrownLedgersAreChains(c, cfg, chainId, stored, as1);
    var G, b, lo2 := GrownLedgersAreChains(c, cfg, chainId, stored2, as2);
    CoveredBlocks(c, a, as1, inputs);
    CoveredBlocks(c, b, as2, inputs);
    var E, F := Grow(c, cfg, chainId, stored, as1).entries, Grow(c, cfg, chainId, stored2, as2).entries;
    forall i | i <= h && i in E && i in F ensures E[i] == F[i] {
      SameHashSameHistory(c, cfg, chainId, H, a, G, b, inputs, h - 1, i - 1);
    }
  }

  // ---------- no replay ----------

  /** Every transaction of the chain, in order. */
  ghost function AllTxs(blocks: seq<Block>): seq<Transaction> {
    if blocks == [] then [] else AllTxs(blocks[..|blocks| - 1]) + blocks[|blocks| - 1].body
  }

  lemma {:induction false} CountConcat(a: seq<Transaction>, b: seq<Transaction>, p: Bytes)
    ensures Count(a + b, p) == Count(a, p) + Count(b, p)
    decreases |b|
  {
    if b == [] {
      assert a + b == a;
    } else {
      var n := |b| - 1;
      assert (a + b)[..|a| + n] == a + b[..n];
      CountConcat(a, b[..n], p);
    }
  }

  lemma NoncesInOrderConcat(a: seq<Transaction>, b: seq<Transaction>, before: Nonces, between: Nonces)
    requires NoncesInOrder(a, before) && NoncesInOrder(b, between)
    requires forall p :: NonceOf(between, p) == NonceOf(before, p) + Count(a, p)
    ensures NoncesInOrder(a + b, before)
  {
    hide Count;
    var t := a + b;
    forall i | 0 <= i < |t|
      ensures t[i].nonce == NonceOf(before, t[i].senderPubkey) + Count(t[..i], t[i].senderPubkey)
    {
      if i < |a| {
        assert t[..i] == a[..i];
      } else {
        assert t[..i] == a + b[..i - |a|];
        CountConcat(a, b[..i - |a|], t[i].senderPubkey);
      }
    }
  }

  /** Along a chain every sender's applied nonces are 0, 1, 2, … in order, and the nonce map of the head
      counts them. */
  lemma {:induction false} ChainNonces(c: Primitives, cfg: ExecutionConfig, chainId: Bytes, H: seq<LedgerEntry>,
                                       blocks: seq<Block>)
    requires History(c, cfg, chainId, H, blocks)
    ensures NoncesInOrder(AllTxs(blocks), map[])
    ensures forall p :: NonceOf(NoncesAfter(Prev(H, |H|)), p) == Count(AllTxs(blocks), p)
  {
    hide ValidateBody, BlockHash, Execute, NoncesInOrder;
    if H == [] {
      NoNonces();
    } else {
      var n := |H| - 1;
      HistoryPrefix(c, cfg, chainId, H, blocks, n);
      ChainNonces(c, cfg, chainId, H[..n], blocks[..n]);
      assert Prev(H[..n], n) == Prev(H, n);
      assert Link(c, cfg, chainId, Prev(H, n), blocks[n], H[n], n + 1);
      var state, nonces, body := StateAfter(Prev(H, n)), NoncesAfter(Prev(H, n)), blocks[n].body;
      ValidMeans(c, cfg, blocks[n].header, body, state, nonces);
      SuccessNonces(c, cfg, body, state, nonces);
      NoncesInOrderConcat(AllTxs(blocks[..n]), body, map[], nonces);
      forall p ensures NonceOf(H[n].nonces, p) == Count(AllTxs(blocks), p) {
        NonceAfter(c, cfg, body, state, nonces, p);
        CountConcat(AllTxs(blocks[..n]), body, p);
      }
    }
  }

  lemma NoNonces()
    ensures NoncesInOrder([], map[])
  {
  }

  /** No transaction is ever applied twice, in one block or in two, under the same identifier. */
  lemma NoReplay(c: Primitives, cfg: ExecutionConfig, chainId: Bytes, H: seq<LedgerEntry>, blocks: seq<Block>,
                 inputs: set<Bytes>, i: nat, j: nat)
    requires History(c, cfg, chainId, H, blocks)
    requires CollisionFree(c, inputs) && IdsCovered(AllTxs(blocks), inputs)
    requires i < j < |AllTxs(blocks)| && TxId(c, AllTxs(blocks)[i]).Some?
    ensures TxId(c, AllTxs(blocks)[i]) != TxId(c, AllTxs(blocks)[j])
  {
    hide History, TxId, IdPreimage;
    var txs := AllTxs(blocks);
    ChainNonces(c, cfg, chainId, H, blocks);
    if TxId(c, txs[i]) == TxId(c, txs[j]) {
      assert forall t :: t in [txs[i], txs[j]] ==> t in txs;
      TxIdCommits(c, txs[i], txs[j], inputs);
      NoncesDistinct(txs, map[], i, j);
    }
  }
}
