/** Pending blocks, header first (src/block_store.py). */
module BlockStores {
  import opened Wrappers
  import opened Ordering
  import opened Crypto
  import opened Transactions
  import opened Blocks

  datatype Store = Store(headers: map<Bytes, BlockHeader>, bodies: map<Bytes, seq<Transaction>>)

  /** `NotHashed` stands for the exception of `header.block_hash()`. */
  datatype StoreResult = Stored | HeaderNotFound | BodyConflict | HeaderConflict | NotHashed

  function PutHeader(c: Primitives, s: Store, header: BlockHeader): (Store, StoreResult) {
    match BlockHash(c, header)
    case None => (s, NotHashed)
    case Some(hash) =>
      if hash in s.headers then (s, if s.headers[hash] == header then Stored else HeaderConflict)
      else (s.(headers := s.headers[hash := header]), Stored)
  }

  function PutBody(s: Store, hash: Bytes, txs: seq<Transaction>): (Store, StoreResult) {
    if hash !in s.headers then (s, HeaderNotFound)
    else if hash in s.bodies then (s, if s.bodies[hash] == txs then Stored else BodyConflict)
    else (s.(bodies := s.bodies[hash := txs]), Stored)
  }

  /** Headers sit under their own hash, and no body is there before its header. */
  ghost predicate Keyed(c: Primitives, s: Store) {
    (forall h :: h in s.headers ==> BlockHash(c, s.headers[h]) == Some(h)) && s.bodies.Keys <= s.headers.Keys
  }

  /** Nothing stored in s is missing or different in t. */
  ghost predicate Extends(s: Store, t: Store) {
    (forall h :: h in s.headers ==> h in t.headers && t.headers[h] == s.headers[h])
    && (forall h :: h in s.bodies ==> h in t.bodies && t.bodies[h] == s.bodies[h])
  }

  datatype StoreOp = HeaderOp(header: BlockHeader) | BodyOp(hash: Bytes, txs: seq<Transaction>)

  function ApplyOps(c: Primitives, s: Store, ops: seq<StoreOp>): Store {
    if ops == [] then s
    else
      var t := ApplyOps(c, s, ops[..|ops| - 1]);
      match ops[|ops| - 1]
      case HeaderOp(header) => PutHeader(c, t, header).0
      case BodyOp(hash, txs) => PutBody(t, hash, txs).0
  }

  /** The store is write-once and header-first, whatever arrives in whatever order. */
  lemma {:induction false} StoreIsWriteOnce(c: Primitives, s: Store, ops: seq<StoreOp>)
    requires Keyed(c, s)
    ensures Keyed(c, ApplyOps(c, s, ops)) && Extends(s, ApplyOps(c, s, ops))
  {
    hide BlockHash;
    if ops != [] {
      StoreIsWriteOnce(c, s, ops[..|ops| - 1]);
    }
  }

  /** The i-th call stores a header under the hash. */
  ghost predicate PutsHeader(c: Primitives, ops: seq<StoreOp>, i: nat, hash: Bytes) {
    i < |ops| && ops[i].HeaderOp? && BlockHash(c, ops[i].header) == Some(hash)
  }

  ghost predicate Announced(c: Primitives, ops: seq<StoreOp>, hash: Bytes) {
    exists i: nat :: PutsHeader(c, ops, i, hash)
  }

  /** The i-th call offers a body for a hash whose header came before. */
  ghost predicate OffersBody(c: Primitives, ops: seq<StoreOp>, i: nat, hash: Bytes) {
    i < |ops| && ops[i].BodyOp? && ops[i].hash == hash && Announced(c, ops[..i], hash)
  }

  ghost predicate Offered(c: Primitives, ops: seq<StoreOp>, hash: Bytes) {
    exists i: nat :: OffersBody(c, ops, i, hash)
  }

  /** The first such call offers these transactions. */
  ghost predicate FirstBody(c: Primitives, ops: seq<StoreOp>, i: nat, hash: Bytes, txs: seq<Transaction>) {
    OffersBody(c, ops, i, hash) && ops[i].txs == txs && !Offered(c, ops[..i], hash)
  }

  ghost predicate FirstOffer(c: Primitives, ops: seq<StoreOp>, hash: Bytes, txs: seq<Transaction>) {
    exists i: nat :: FirstBody(c, ops, i, hash, txs)
  }

  lemma AnnouncedGrows(c: Primitives, ops: seq<StoreOp>, op: StoreOp, hash: Bytes)
    ensures Announced(c, ops + [op], hash) <==>
            Announced(c, ops, hash) || (op.HeaderOp? && BlockHash(c, op.header) == Some(hash))
  {
    hide BlockHash;
    if i: nat :| PutsHeader(c, ops, i, hash) {
      assert PutsHeader(c, ops + [op], i, hash);
    }
    if i: nat :| PutsHeader(c, ops + [op], i, hash) {
      assert i < |ops| ==> PutsHeader(c, ops, i, hash);
    }
    assert op.HeaderOp? && BlockHash(c, op.header) == Some(hash) ==> PutsHeader(c, ops + [op], |ops|, hash);
  }

  lemma PrefixOffers(c: Primitives, ops: seq<StoreOp>, op: StoreOp, i: nat, hash: Bytes)
    requires i < |ops|
    ensures OffersBody(c, ops + [op], i, hash) <==> OffersBody(c, ops, i, hash)
  {
    hide Announced;
    assert (ops + [op])[..i] == ops[..i];
  }

  lemma LastOffers(c: Primitives, ops: seq<StoreOp>, op: StoreOp, hash: Bytes)
    ensures OffersBody(c, ops + [op], |ops|, hash) <==> op.BodyOp? && op.hash == hash && Announced(c, ops, hash)
  {
    hide Announced;
    assert (ops + [op])[..|ops|] == ops;
  }

  lemma OfferedGrows(c: Primitives, ops: seq<StoreOp>, op: StoreOp, hash: Bytes)
    ensures Offered(c, ops + [op], hash) <==>
            Offered(c, ops, hash) || (op.BodyOp? && op.hash == hash && Announced(c, ops, hash))
  {
    hide Announced;
    LastOffers(c, ops, op, hash);
    if i: nat :| OffersBody(c, ops, i, hash) {
      PrefixOffers(c, ops, op, i, hash);
    }
    if i: nat :| OffersBody(c, ops + [op], i, hash) {
      if i < |ops| {
        PrefixOffers(c, ops, op, i, hash);
      }
    }
  }

  lemma FirstOfferGrows(c: Primitives, ops: seq<StoreOp>, op: StoreOp, hash: Bytes, txs: seq<Transaction>)
    ensures FirstOffer(c, ops + [op], hash, txs) <==>
            FirstOffer(c, ops, hash, txs)
            || (op == BodyOp(hash, txs) && Announced(c, ops, hash) && !Offered(c, ops, hash))
  {
    LastOffers(c, ops, op, hash);
    var more := ops + [op];
    assert more[..|ops|] == ops;
    if i: nat :| FirstBody(c, ops, i, hash, txs) {
      PrefixOffers(c, ops, op, i, hash);
      assert more[..i] == ops[..i];
      assert FirstBody(c, more, i, hash, txs);
    }
    if i: nat :| FirstBody(c, more, i, hash, txs) {
      if i < |ops| {
        PrefixOffers(c, ops, op, i, hash);
        assert more[..i] == ops[..i];
        assert FirstBody(c, ops, i, hash, txs);
      }
    }
    hide Announced, Offered, OffersBody;
    assert op == BodyOp(hash, txs) && Announced(c, ops, hash) && !Offered(c, ops, hash) ==>
             FirstBody(c, more, |ops|, hash, txs);
  }

  ghost predicate HasBody(s: Store, hash: Bytes, txs: seq<Transaction>) {
    hash in s.bodies && s.bodies[hash] == txs
  }

  lemma OneCall(c: Primitives, ops: seq<StoreOp>, hash: Bytes, txs: seq<Transaction>)
    requires ops != []
    ensures var before, op := ApplyOps(c, Store(map[], map[]), ops[..|ops| - 1]), ops[|ops| - 1];
            var after := ApplyOps(c, Store(map[], map[]), ops);
            (hash in after.headers <==>
               hash in before.headers || (op.HeaderOp? && BlockHash(c, op.header) == Some(hash)))
            && (hash in after.bodies <==>
                  hash in before.bodies || (op.BodyOp? && op.hash == hash && hash in before.headers))
            && (HasBody(after, hash, txs) <==>
                  HasBody(before, hash, txs)
                  || (op == BodyOp(hash, txs) && hash in before.headers && hash !in before.bodies))
  {
    hide BlockHash;
  }

  /** Over every sequence of calls on a new store, a hash has a header exactly when one with that hash was offered, and
      its body is that of the first call that offered one after the header. */
  lemma {:induction false} StoreHoldsTheFirst(c: Primitives, ops: seq<StoreOp>, hash: Bytes, txs: seq<Transaction>)
    ensures var s := ApplyOps(c, Store(map[], map[]), ops);
            (hash in s.headers <==> Announced(c, ops, hash)) && (hash in s.bodies <==> Offered(c, ops, hash))
            && (HasBody(s, hash, txs) <==> FirstOffer(c, ops, hash, txs))
  {
    if ops == [] {
      hide BlockHash;
    } else {
      var before, op := ops[..|ops| - 1], ops[|ops| - 1];
      hide *;
      assert ops == before + [op];
      StoreHoldsTheFirst(c, before, hash, txs);
      OneCall(c, ops, hash, txs);
      AnnouncedGrows(c, before, op, hash);
      OfferedGrows(c, before, op, hash);
      FirstOfferGrows(c, before, op, hash, txs);
    }
  }

  /** A call succeeds exactly when the store then holds what it brought, and otherwise nothing changes. */
  lemma SucceedsExactlyWhenHeld(c: Primitives, s: Store, header: BlockHeader, hash: Bytes, txs: seq<Transaction>)
    ensures var (t, r) := PutHeader(c, s, header);
            (r.NotHashed? <==> BlockHash(c, header) == None) && (r.HeaderConflict? || r.NotHashed? || r.Stored?)
            && (r.Stored? <==>
                  BlockHash(c, header).Some? && BlockHash(c, header).value in t.headers
                  && t.headers[BlockHash(c, header).value] == header)
            && (!r.Stored? ==> t == s)
    ensures var (t, r) := PutBody(s, hash, txs);
            (r.HeaderNotFound? <==> hash !in s.headers) && (r.HeaderNotFound? || r.BodyConflict? || r.Stored?)
            && (r.Stored? <==> hash in s.headers && hash in t.bodies && t.bodies[hash] == txs)
            && (!r.Stored? ==> t == s)
  {
    hide BlockHash;
  }

  class BlockStore {
    var headers: map<Bytes, BlockHeader>
    var bodies: map<Bytes, seq<Transaction>>

    ghost function View(): Store
      reads this
    {
      Store(headers, bodies)
    }

    constructor ()
      ensures View() == Store(map[], map[])
    {
      headers, bodies := map[], map[];
    }

    method StoreHeader(c: Primitives, header: BlockHeader) returns (r: StoreResult)
      modifies this
      ensures (View(), r) == PutHeader(c, old(View()), header)
    {
      hide BlockHash;
      var hash := BlockHash(c, header);
      if hash == None {
        return NotHashed;
      }
      if hash.value in headers {
        return if headers[hash.value] != header then HeaderConflict else Stored;
      }
      headers := headers[hash.value := header];
      return Stored;
    }

    method StoreBody(hash: Bytes, txs: seq<Transaction>) returns (r: StoreResult)
      modifies this
      ensures (View(), r) == PutBody(old(View()), hash, txs)
    {
      if hash !in headers {
        return HeaderNotFound;
      }
      if hash in bodies {
        return if bodies[hash] != txs then BodyConflict else Stored;
      }
      bodies := bodies[hash := txs];
      return Stored;
    }
  }
}
