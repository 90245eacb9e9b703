/** The append-only ledger, its on-disk snapshot, and what survives a crash (src/ledger.py). */
module Ledgers {
  import opened Wrappers
  import opened Ordering
  import opened Encoding
  import opened Crypto
  import opened Blocks
  import opened States
  import opened Executor

  /** `state` and `nonces` are values: the source stores copies and hands out copies. */
  datatype LedgerEntry = LedgerEntry(
    height: int, blockHash: Bytes, header: BlockHeader, appliedTxIds: seq<Bytes>, state: Contents, nonces: Nonces)

  type Entries = map<int, LedgerEntry>

  /** The persisted form of the latest entry: maps become lists in key order. */
  datatype Snapshot = Snapshot(
    finalizedHeight: int, finalizedHash: Bytes, state: seq<Entry>, nonces: seq<(Bytes, int)>,
    header: BlockHeader, appliedTxIds: seq<Bytes>)

  datatype LedgerError =
    | ChainIdMismatch | NonSequentialHeight | ParentHashMismatch | HashFailed | PersistFailed | Crashed

  datatype LoadError = InvalidSnapshot | WrongChainId | HeightMismatch | HashMismatch | CannotHash

  /** What may go wrong while an entry is written to disk. */
  datatype Fault =
    | NoFault | WriteFails | CrashBeforeWrite | CrashDuringWrite | CrashBeforeReplace | CrashAfterReplace

  /** `stored` says whether the ledger has a storage path. */
  datatype LedgerState = LedgerState(chainId: Bytes, entries: Entries, stored: bool, snapshot: Option<Snapshot>)

  // ---------- heights ----------

  ghost predicate IsMax(m: int, s: set<int>) {
    m in s && forall x :: x in s ==> x <= m
  }

  lemma SomeElement(s: set<int>)
    requires s != {}
    ensures exists x :: x in s
  {
    assert (forall x :: x !in s) ==> s == {};
  }

  lemma {:induction false} MaxExists(s: set<int>)
    requires s != {}
    ensures exists m :: IsMax(m, s)
    decreases |s|
  {
    SomeElement(s);
    var x :| x in s;
    if s == {x} {
      assert IsMax(x, s);
    } else {
      var rest := s - {x};
      assert s == rest + {x};
      MaxExists(rest);
      var m :| IsMax(m, rest);
      assert IsMax(if x > m then x else m, s);
    }
  }

  /** `max(self._entries, default=0)`. */
  ghost function FinalizedHeight(entries: Entries): (h: int)
    ensures entries == map[] ==> h == 0
    ensures entries != map[] ==> IsMax(h, entries.Keys)
  {
    if entries == map[] then 0
    else
      assert entries.Keys == {} ==> entries == map[];
      MaxExists(entries.Keys);
      var m :| IsMax(m, entries.Keys);
      m
  }

  /** The entry at the finalized height; None for an empty ledger. */
  ghost function Head(entries: Entries): Option<LedgerEntry> {
    if entries == map[] then None else Some(entries[FinalizedHeight(entries)])
  }

  // ---------- finalize ----------

  /** The guards of `finalize`, and the entry it would append. */
  ghost function NewEntry(c: Primitives, chainId: Bytes, entries: Entries, header: BlockHeader,
                          ids: seq<Bytes>, state: Contents, nonces: Nonces): Result<LedgerEntry, LedgerError> {
    var expected := FinalizedHeight(entries) + 1;
    if header.chainId != chainId then Err(ChainIdMismatch)
    else if header.height != expected then Err(NonSequentialHeight)
    else if expected > 1 && header.parentHash != entries[expected - 1].blockHash then Err(ParentHashMismatch)
    else match BlockHash(c, header)
         case None => Err(HashFailed)
         case Some(hash) => Ok(LedgerEntry(header.height, hash, header, ids, state, nonces))
  }

  ghost function SnapshotOf(e: LedgerEntry): Snapshot {
    Snapshot(e.height, e.blockHash, Items(e.state), Items(e.nonces), e.header, e.appliedTxIds)
  }

  /** The disk after the attempt to persist e, and the error that stopped the attempt. */
  ghost function Persisted(L: LedgerState, e: LedgerEntry, fault: Fault): (Option<Snapshot>, Option<LedgerError>) {
    match fault
    case NoFault => (if L.stored then Some(SnapshotOf(e)) else L.snapshot, None)
    case WriteFails => (L.snapshot, if L.stored then Some(PersistFailed) else None)
    case CrashAfterReplace => (if L.stored then Some(SnapshotOf(e)) else L.snapshot, Some(Crashed))
    case _ => (L.snapshot, Some(Crashed))
  }

  /** `finalize`: check, persist, and only then publish in memory. */
  ghost function Finalize(c: Primitives, L: LedgerState, header: BlockHeader, ids: seq<Bytes>, state: Contents,
                          nonces: Nonces, fault: Fault): (LedgerState, Result<LedgerEntry, LedgerError>) {
    match NewEntry(c, L.chainId, L.entries, header, ids, state, nonces)
    case Err(e) => (L, Err(e))
    case Ok(entry) =>
      var (snapshot, error) := Persisted(L, entry, fault);
      match error
      case Some(e) => (L.(snapshot := snapshot), Err(e))
      case None => (L.(snapshot := snapshot, entries := L.entries[header.height := entry]), Ok(entry))
  }

  // ---------- load ----------

  ghost predicate HasEmptyKey(es: seq<Entry>) {
    exists i :: 0 <= i < |es| && es[i].0 == []
  }

  /** `load_snapshot`: at most the one persisted entry comes back. */
  ghost function Load(c: Primitives, chainId: Bytes, snapshot: Option<Snapshot>): Result<Entries, LoadError> {
    match snapshot
    case None => Ok(map[])
    case Some(s) =>
      if HasEmptyKey(s.state) then Err(InvalidSnapshot)
      else if s.header.chainId != chainId then Err(WrongChainId)
      else if s.finalizedHeight != s.header.height then Err(HeightMismatch)
      else match BlockHash(c, s.header)
           case None => Err(CannotHash)
           case Some(hash) =>
             if s.finalizedHash != hash then Err(HashMismatch)
             else Ok(map[s.finalizedHeight := LedgerEntry(
                       s.finalizedHeight, s.finalizedHash, s.header, s.appliedTxIds, MapOf(s.state), MapOf(s.nonces))])
  }

  /** The file and the temporary file beside it. A rename replaces the file in one step. */
  datatype TempFile = Partial | Complete(snapshot: Snapshot)

  class Disk {
    var snapshot: Option<Snapshot>
    var temp: Option<TempFile>

    constructor ()
      ensures snapshot == None && temp == None
    {
      snapshot, temp := None, None;
    }
  }

  class Ledger {
    const chainId: Bytes
    const disk: Disk?
    var entries: Entries

    ghost function View(): LedgerState
      reads this, disk
    {
      LedgerState(chainId, entries, disk != null, if disk == null then None else disk.snapshot)
    }

    constructor (chainId: Bytes, disk: Disk?)
      ensures this.chainId == chainId && this.disk == disk && entries == map[]
    {
      this.chainId := chainId;
      this.disk := disk;
      entries := map[];
    }

    method ComputeFinalizedHeight() returns (h: int)
      ensures h == FinalizedHeight(entries)
    {
      var rest := entries.Keys;
      h := 0;
      var first := true;
      while rest != {}
        invariant rest <= entries.Keys
        invariant first <==> rest == entries.Keys
        invariant first ==> h == 0
        invariant !first ==> h in entries && h !in rest
        invariant !first ==> forall k :: k in entries && k !in rest ==> k <= h
        decreases |rest|
      {
        SomeElement(rest);
        var k :| k in rest;
        if first || k > h {
          h := k;
        }
        rest := rest - {k};
        first := false;
      }
      assert entries.Keys == {} ==> entries == map[];
      assert entries != map[] ==> IsMax(h, entries.Keys);
    }

    /** `_persist_entry`, interrupted as `fault` says. A failed write removes the temporary file; a crash
        leaves it. */
    method PersistEntry(e: LedgerEntry, fault: Fault) returns (error: Option<LedgerError>)
      modifies disk
      ensures (View().snapshot, error) == Persisted(old(View()), e, fault)
    {
      if disk == null {
        return if fault.NoFault? || fault.WriteFails? then None else Some(Crashed);
      }
      if fault == CrashBeforeWrite {
        return Some(Crashed);
      }
      var state := SortedItems(e.state);
      var nonces := SortedItems(e.nonces);
      var payload := Snapshot(e.height, e.blockHash, state, nonces, e.header, e.appliedTxIds);
      disk.temp := Some(Partial);
      if fault == WriteFails {
        disk.temp := None;
        return Some(PersistFailed);
      }
      if fault == CrashDuringWrite {
        return Some(Crashed);
      }
      disk.temp := Some(Complete(payload));
      if fault == CrashBeforeReplace {
        return Some(Crashed);
      }
      disk.snapshot := Some(payload);
      disk.temp := None;
      if fault == CrashAfterReplace {
        return Some(Crashed);
      }
      return None;
    }

    method FinalizeBlock(c: Primitives, header: BlockHeader, ids: seq<Bytes>, state: State, nonces: Nonces,
                         fault: Fault)
      returns (r: Result<LedgerEntry, LedgerError>)
      modifies this, disk
      ensures (View(), r) == Finalize(c, old(View()), header, ids, old(state.entries), nonces, fault)
      ensures r.Err? ==> entries == old(entries)
    {
      hide BlockHash;
      if header.chainId != chainId {
        return Err(ChainIdMismatch);
      }
      var height := ComputeFinalizedHeight();
      var expected := height + 1;
      if header.height != expected {
        return Err(NonSequentialHeight);
      }
      if expected > 1 {
        var parent := entries[expected - 1];
        if header.parentHash != parent.blockHash {
          return Err(ParentHashMismatch);
        }
      }
      var hash := BlockHash(c, header);
      if hash == None {
        return Err(HashFailed);
      }
      var entry := LedgerEntry(header.height, hash.value, header, ids, state.entries, nonces);
      var error := PersistEntry(entry, fault);
      if error.Some? {
        return Err(error.value);
      }
      entries := entries[header.height := entry];
      return Ok(entry);
    }

    /** `get_state`: a fresh copy; None stands for the KeyError. */
    method GetState(height: int) returns (r: Option<State>)
      ensures r.Some? <==> height in entries
      ensures r.Some? ==> fresh(r.value) && r.value.entries == entries[height].state
    {
      if height !in entries {
        return None;
      }
      var s := new State();
      s.entries := entries[height].state;
      r := Some(s);
    }
  }

  /** The restore loops and checks of `load_snapshot`. The disk is only read. */
  method LoadSnapshot(c: Primitives, chainId: Bytes, disk: Disk) returns (ledger: Ledger, error: Option<LoadError>)
    ensures fresh(ledger) && ledger.chainId == chainId && ledger.disk == disk
    ensures match Load(c, chainId, disk.snapshot)
            case Ok(entries) => error == None && ledger.entries == entries
            case Err(e) => error == Some(e) && ledger.entries == map[]
  {
    hide BlockHash;
    ledger := new Ledger(chainId, disk);
    if disk.snapshot == None {
      return ledger, None;
    }
    var s := disk.snapshot.value;
    var state := new State();
    for i := 0 to |s.state|
      invariant fresh(state) && ledger.entries == map[]
      invariant !HasEmptyKey(s.state[..i])
      invariant state.entries == MapOf(s.state[..i])
    {
      var ok := state.Insert(s.state[i].0, s.state[i].1);
      if !ok {
        return ledger, Some(InvalidSnapshot);
      }
      assert s.state[..i + 1][..i] == s.state[..i];
    }
    assert s.state[..|s.state|] == s.state;
    var nonces: Nonces := map[];
    for i := 0 to |s.nonces|
      invariant nonces == MapOf(s.nonces[..i])
    {
      nonces := nonces[s.nonces[i].0 := s.nonces[i].1];
      assert s.nonces[..i + 1][..i] == s.nonces[..i];
    }
    assert s.nonces[..|s.nonces|] == s.nonces;
    if s.header.chainId != chainId {
      return ledger, Some(WrongChainId);
    }
    if s.finalizedHeight != s.header.height {
      return ledger, Some(HeightMismatch);
    }
    var hash := BlockHash(c, s.header);
    if hash == None {
      return ledger, Some(CannotHash);
    }
    if s.finalizedHash != hash.value {
      return ledger, Some(HashMismatch);
    }
    ledger.entries := map[s.finalizedHeight := LedgerEntry(
                            s.finalizedHeight, s.finalizedHash, s.header, s.appliedTxIds, state.entries, nonces)];
    return ledger, None;
  }

  // ---------- crash safety ----------

  /** What every entry that was ever finalized satisfies. */
  ghost predicate Sound(c: Primitives, chainId: Bytes, e: LedgerEntry) {
    e.header.chainId == chainId && e.height == e.header.height
    && BlockHash(c, e.header) == Some(e.blockHash) && [] !in e.state
  }

  /** The disk holds the head of the ledger. */
  ghost predicate Synced(c: Primitives, L: LedgerState) {
    && L.stored
    && L.snapshot == (match Head(L.entries) case None => None case Some(e) => Some(SnapshotOf(e)))
    && (Head(L.entries).Some? ==> Sound(c, L.chainId, Head(L.entries).value)
                                  && FinalizedHeight(L.entries) == Head(L.entries).value.height >= 1)
  }

  ghost function Only(e: Option<LedgerEntry>): Entries {
    match e case None => map[] case Some(x) => map[x.height := x]
  }

  lemma NoEmptyItem(state: Contents)
    requires [] !in state
    ensures !HasEmptyKey(Items(state))
  {
    hide Items;
    assert forall i :: 0 <= i < |Items(state)| ==> Items(state)[i].0 in state;
  }

  /** Writing a sound entry to disk and loading it gives that entry back. */
  lemma LoadRestores(c: Primitives, chainId: Bytes, e: LedgerEntry)
    requires Sound(c, chainId, e)
    ensures Load(c, chainId, Some(SnapshotOf(e))) == Ok(Only(Some(e)))
  {
    hide BlockHash, Items, MapOf;
    NoEmptyItem(e.state);
    MapOfItems(e.state);
    MapOfItems(e.nonces);
    hide HasEmptyKey;
  }

  lemma LoadHead(c: Primitives, L: LedgerState)
    requires Synced(c, L)
    ensures Load(c, L.chainId, L.snapshot) == Ok(Only(Head(L.entries)))
  {
    hide BlockHash;
    if Head(L.entries).Some? {
      LoadRestores(c, L.chainId, Head(L.entries).value);
    }
  }

  /** A successful append moves the head to the new entry. */
  lemma AppendMovesHead(entries: Entries, h: int, e: LedgerEntry)
    requires h == FinalizedHeight(entries) + 1
    ensures FinalizedHeight(entries[h := e]) == h && Head(entries[h := e]) == Some(e)
  {
    var next := entries[h := e];
    assert h in next;
    assert IsMax(h, next.Keys);
  }

  /** Wherever `finalize` is interrupted, the snapshot restores the head the ledger had in memory, or the
      one entry being finalized; never anything older. An append that was reported is never lost. */
  lemma CrashSafety(c: Primitives, L: LedgerState, header: BlockHeader, ids: seq<Bytes>, state: Contents,
                    nonces: Nonces, fault: Fault)
    requires Synced(c, L) && [] !in state
    ensures var (L', r) := Finalize(c, L, header, ids, state, nonces, fault);
            var restored := Load(c, L.chainId, L'.snapshot);
            match NewEntry(c, L.chainId, L.entries, header, ids, state, nonces)
            case Err(_) => restored == Ok(Only(Head(L.entries)))
            case Ok(entry) =>
              && (restored == Ok(Only(Head(L.entries))) || restored == Ok(Only(Some(entry))))
              && (r.Ok? ==> restored == Ok(Only(Head(L'.entries))) && Head(L'.entries) == Some(entry))
              && (fault != NoFault && fault != CrashAfterReplace ==> restored == Ok(Only(Head(L.entries))))
    ensures var (L', r) := Finalize(c, L, header, ids, state, nonces, fault);
            r != Err(Crashed) ==> Synced(c, L')
  {
    hide BlockHash, Load, SnapshotOf;
    LoadHead(c, L);
    var n := NewEntry(c, L.chainId, L.entries, header, ids, state, nonces);
    if n.Ok? {
      LoadRestores(c, L.chainId, n.value);
      AppendMovesHead(L.entries, header.height, n.value);
    }
  }

  // ---------- exactly what is loaded and what is finalized ----------

  /** The snapshot is one that a ledger of this chain may take over. */
  ghost predicate Takeable(c: Primitives, chainId: Bytes, s: Snapshot) {
    (forall i :: 0 <= i < |s.state| ==> s.state[i].0 != []) && s.header.chainId == chainId
    && s.finalizedHeight == s.header.height && BlockHash(c, s.header) == Some(s.finalizedHash)
  }

  /** A snapshot is loaded exactly when its state has no empty key, and its header is of this chain, at the stored
      height, and hashes to the stored hash. Then all that is loaded is sound, and at the stored height. */
  lemma LoadsExactlyWhen(c: Primitives, chainId: Bytes, snapshot: Option<Snapshot>)
    ensures Load(c, chainId, snapshot).Ok? <==> snapshot == None || Takeable(c, chainId, snapshot.value)
    ensures Load(c, chainId, snapshot).Ok? ==>
              var entries := Load(c, chainId, snapshot).value;
              entries.Keys == (if snapshot == None then {} else {snapshot.value.finalizedHeight})
              && forall h :: h in entries ==>
                   Sound(c, chainId, entries[h]) && entries[h].height == h
                   && entries[h].header == snapshot.value.header
                   && entries[h].appliedTxIds == snapshot.value.appliedTxIds
                   && entries[h].state == MapOf(snapshot.value.state)
                   && entries[h].nonces == MapOf(snapshot.value.nonces)
  {
    hide BlockHash;
    if snapshot.Some? && !HasEmptyKey(snapshot.value.state) {
      NoEmptyKeyStored(snapshot.value.state);
    }
    hide MapOf;
  }

  lemma {:induction false} NoEmptyKeyStored(es: seq<Entry>)
    requires !HasEmptyKey(es)
    ensures [] !in MapOf(es)
  {
    if es != [] {
      var n := |es| - 1;
      assert forall i :: 0 <= i < n ==> es[..n][i] == es[i];
      NoEmptyKeyStored(es[..n]);
    }
  }

  /** The refusal of a snapshot names the first check that fails. */
  lemma LoadRefusals(c: Primitives, chainId: Bytes, s: Snapshot)
    requires Load(c, chainId, Some(s)).Err?
    ensures var keys := forall i :: 0 <= i < |s.state| ==> s.state[i].0 != [];
            match Load(c, chainId, Some(s)).error
            case InvalidSnapshot => !keys
            case WrongChainId => keys && s.header.chainId != chainId
            case HeightMismatch => keys && s.header.chainId == chainId && s.finalizedHeight != s.header.height
            case CannotHash => keys && s.header.chainId == chainId && s.finalizedHeight == s.header.height
                               && BlockHash(c, s.header) == None
            case HashMismatch => keys && s.header.chainId == chainId && s.finalizedHeight == s.header.height
                                 && BlockHash(c, s.header).Some? && BlockHash(c, s.header) != Some(s.finalizedHash)
  {
    hide BlockHash, MapOf;
  }

  /** The header extends the head of the ledger. */
  ghost predicate Extending(L: LedgerState, header: BlockHeader) {
    header.chainId == L.chainId && header.height == FinalizedHeight(L.entries) + 1
    && (header.height > 1 ==> header.parentHash == L.entries[header.height - 1].blockHash)
  }

  /** `finalize` succeeds exactly when the header is of this chain, one above the head, names the head as its parent,
      can be hashed, and nothing interrupts the write; the refusal names the first of these that fails. */
  lemma FinalizesExactlyWhen(c: Primitives, L: LedgerState, header: BlockHeader, ids: seq<Bytes>, state: Contents,
                             nonces: Nonces, fault: Fault)
    ensures var r := Finalize(c, L, header, ids, state, nonces, fault).1;
            r.Ok? <==> Extending(L, header) && BlockHash(c, header).Some?
                       && (fault == NoFault || (fault == WriteFails && !L.stored))
    ensures var r := Finalize(c, L, header, ids, state, nonces, fault).1;
            r.Ok? ==> r.value == LedgerEntry(header.height, BlockHash(c, header).value, header, ids, state, nonces)
    ensures var (L', r) := Finalize(c, L, header, ids, state, nonces, fault);
            r.Err? ==>
              L'.entries == L.entries
              && match r.error
                 case ChainIdMismatch => header.chainId != L.chainId
                 case NonSequentialHeight =>
                   header.chainId == L.chainId && header.height != FinalizedHeight(L.entries) + 1
                 case ParentHashMismatch =>
                   header.chainId == L.chainId && header.height == FinalizedHeight(L.entries) + 1 > 1
                   && header.parentHash != L.entries[header.height - 1].blockHash
                 case HashFailed => Extending(L, header) && BlockHash(c, header) == None
                 case PersistFailed => Extending(L, header) && fault == WriteFails && L.stored
                 case Crashed => Extending(L, header) && fault != NoFault && fault != WriteFails
  {
    hide BlockHash, SnapshotOf;
  }

  // ---------- a recovered ledger is as good as the one that did not crash ----------

  /** Two ledgers with the same head, whatever older entries they still hold. */
  ghost predicate SameHead(a: LedgerState, b: LedgerState) {
    a.chainId == b.chainId && a.stored == b.stored && a.snapshot == b.snapshot
    && Head(a.entries) == Head(b.entries) && FinalizedHeight(a.entries) == FinalizedHeight(b.entries)
  }

  datatype Call = Call(header: BlockHeader, ids: seq<Bytes>, state: Contents, nonces: Nonces, fault: Fault)

  /** The answers of a ledger to a sequence of calls. */
  ghost function Answers(c: Primitives, L: LedgerState, calls: seq<Call>): seq<Result<LedgerEntry, LedgerError>>
    decreases |calls|
  {
    if calls == [] then []
    else
      var k := calls[0];
      var (L', r) := Finalize(c, L, k.header, k.ids, k.state, k.nonces, k.fault);
      [r] + Answers(c, L', calls[1..])
  }

  lemma FinalizeSameHead(c: Primitives, a: LedgerState, b: LedgerState, k: Call)
    requires SameHead(a, b)
    ensures var (a', ra) := Finalize(c, a, k.header, k.ids, k.state, k.nonces, k.fault);
            var (b', rb) := Finalize(c, b, k.header, k.ids, k.state, k.nonces, k.fault);
            ra == rb && SameHead(a', b')
  {
    hide BlockHash;
    var n := NewEntry(c, a.chainId, a.entries, k.header, k.ids, k.state, k.nonces);
    assert n == NewEntry(c, b.chainId, b.entries, k.header, k.ids, k.state, k.nonces);
    if n.Ok? {
      AppendMovesHead(a.entries, k.header.height, n.value);
      AppendMovesHead(b.entries, k.header.height, n.value);
    }
  }

  /** From then on both accept and reject the same headers, with the same entries and errors. */
  lemma {:induction false} SameHeadSameAnswers(c: Primitives, a: LedgerState, b: LedgerState, calls: seq<Call>)
    requires SameHead(a, b)
    ensures Answers(c, a, calls) == Answers(c, b, calls)
    decreases |calls|
  {
    hide Finalize, SameHead;
    if calls != [] {
      var k := calls[0];
      FinalizeSameHead(c, a, b, k);
      SameHeadSameAnswers(c, Finalize(c, a, k.header, k.ids, k.state, k.nonces, k.fault).0,
                          Finalize(c, b, k.header, k.ids, k.state, k.nonces, k.fault).0, calls[1..]);
    }
  }

  /** The ledger rebuilt after a restart. */
  ghost function Restart(c: Primitives, L: LedgerState): LedgerState {
    match Load(c, L.chainId, L.snapshot)
    case Ok(entries) => L.(entries := entries)
    case Err(_) => L.(entries := map[])
  }

  lemma OnlyHead(e: LedgerEntry)
    ensures FinalizedHeight(Only(Some(e))) == e.height && Head(Only(Some(e))) == Some(e)
  {
    assert e.height in Only(Some(e));
    assert IsMax(FinalizedHeight(Only(Some(e))), {e.height});
  }

  /** A restart that finds the disk in step changes no later answer. */
  lemma RestartIsInvisible(c: Primitives, L: LedgerState, calls: seq<Call>)
    requires Synced(c, L)
    ensures Synced(c, Restart(c, L)) && SameHead(L, Restart(c, L))
    ensures Answers(c, Restart(c, L), calls) == Answers(c, L, calls)
  {
    hide BlockHash;
    LoadHead(c, L);
    if Head(L.entries).Some? {
      OnlyHead(Head(L.entries).value);
    }
    SameHeadSameAnswers(c, L, Restart(c, L), calls);
  }

  /** The faults after which the new snapshot is in place. */
  predicate Replaced(fault: Fault) {
    fault == NoFault || fault == CrashAfterReplace
  }

  /** The ledger that behaves like the one restarted after the call: with the entry if the snapshot was replaced, and as
      if the call had never been made otherwise. */
  ghost function Surviving(c: Primitives, L: LedgerState, k: Call): LedgerState {
    if Replaced(k.fault) then Finalize(c, L, k.header, k.ids, k.state, k.nonces, NoFault).0 else L
  }

  lemma RestartAfterCall(c: Primitives, L: LedgerState, k: Call)
    requires Synced(c, L) && [] !in k.state
    ensures SameHead(Surviving(c, L, k), Restart(c, Finalize(c, L, k.header, k.ids, k.state, k.nonces, k.fault).0))
  {
    hide BlockHash, Load, SnapshotOf;
    LoadHead(c, L);
    var n := NewEntry(c, L.chainId, L.entries, k.header, k.ids, k.state, k.nonces);
    if n.Ok? {
      LoadRestores(c, L.chainId, n.value);
      OnlyHead(n.value);
      AppendMovesHead(L.entries, k.header.height, n.value);
    }
    if Head(L.entries).Some? {
      OnlyHead(Head(L.entries).value);
    }
  }

  /** Whatever point of `finalize` is interrupted, the restarted ledger gives every later answer of a ledger that never
      crashed: one that has the entry exactly when the snapshot had been replaced. */
  lemma InterruptedCallIsAtomic(c: Primitives, L: LedgerState, k: Call, calls: seq<Call>)
    requires Synced(c, L) && [] !in k.state
    ensures Answers(c, Restart(c, Finalize(c, L, k.header, k.ids, k.state, k.nonces, k.fault).0), calls)
            == Answers(c, Surviving(c, L, k), calls)
  {
    RestartAfterCall(c, L, k);
    hide Finalize, Restart, Surviving, SameHead;
    SameHeadSameAnswers(c, Surviving(c, L, k),
                        Restart(c, Finalize(c, L, k.header, k.ids, k.state, k.nonces, k.fault).0), calls);
  }

  /** A life with crashes: a crashed call is followed by a restart. */
  ghost function Live(c: Primitives, L: LedgerState, calls: seq<Call>): LedgerState {
    if calls == [] then L
    else
      var before := Live(c, L, calls[..|calls| - 1]);
      var k := calls[|calls| - 1];
      var (after, r) := Finalize(c, before, k.header, k.ids, k.state, k.nonces, k.fault);
      if r == Err(Crashed) then Restart(c, after) else after
  }

  /** In every life, however often it crashes, the disk stays in step with memory and the finalized
      height never goes back. */
  lemma {:induction false} LifeStaysSynced(c: Primitives, L: LedgerState, calls: seq<Call>)
    requires Synced(c, L)
    requires forall i :: 0 <= i < |calls| ==> [] !in calls[i].state
    ensures var after := Live(c, L, calls);
            Synced(c, after) && after.chainId == L.chainId
            && FinalizedHeight(L.entries) <= FinalizedHeight(after.entries)
            && (calls != [] ==>
                    FinalizedHeight(Live(c, L, calls[..|calls| - 1]).entries) <= FinalizedHeight(after.entries))
  {
    hide BlockHash;
    if calls != [] {
      var n := |calls| - 1;
      LifeStaysSynced(c, L, calls[..n]);
      LifeStep(c, Live(c, L, calls[..n]), calls[n]);
    }
  }

  lemma LifeStep(c: Primitives, L: LedgerState, k: Call)
    requires Synced(c, L) && [] !in k.state
    ensures var (after, r) := Finalize(c, L, k.header, k.ids, k.state, k.nonces, k.fault);
            var next := if r == Err(Crashed) then Restart(c, after) else after;
            Synced(c, next) && next.chainId == L.chainId && FinalizedHeight(L.entries) <= FinalizedHeight(next.entries)
  {
    hide BlockHash, Load, SnapshotOf;
    CrashSafety(c, L, k.header, k.ids, k.state, k.nonces, k.fault);
    LoadHead(c, L);
    var n := NewEntry(c, L.chainId, L.entries, k.header, k.ids, k.state, k.nonces);
    if n.Ok? {
      LoadRestores(c, L.chainId, n.value);
      OnlyHead(n.value);
      AppendMovesHead(L.entries, k.header.height, n.value);
    }
    if Head(L.entries).Some? {
      OnlyHead(Head(L.entries).value);
    }
  }
}
