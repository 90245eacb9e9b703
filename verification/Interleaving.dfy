/** Only the order within one sender matters. Nonces and namespaces keep senders apart, so two blocks
    with the same transactions per sender, each in the same order, do the same to the same parent. */
module Interleaving {
  import opened Wrappers
  import opened Ordering
  import opened Crypto
  import opened Transactions
  import opened States
  import opened Executor

  /** The transactions of one sender, in block order. */
  function Sub(txs: seq<Transaction>, p: Bytes): seq<Transaction> {
    if txs == [] then []
    else
      var n := |txs| - 1;
      if txs[n].senderPubkey == p then Sub(txs[..n], p) + [txs[n]] else Sub(txs[..n], p)
  }

  function Lookup(m: Contents, k: Bytes): Option<Bytes> {
    if k in m then Some(m[k]) else None
  }

  lemma {:induction false} SubMembers(txs: seq<Transaction>, p: Bytes)
    ensures forall tx :: tx in Sub(txs, p) <==> tx in txs && tx.senderPubkey == p
  {
    if txs != [] {
      var n := |txs| - 1;
      SubMembers(txs[..n], p);
      assert txs == txs[..n] + [txs[n]];
    }
  }

  lemma {:induction false} SubCount(txs: seq<Transaction>, p: Bytes)
    ensures Count(Sub(txs, p), p) == Count(txs, p) == |Sub(txs, p)|
  {
    if txs != [] {
      var n := |txs| - 1;
      SubCount(txs[..n], p);
      if txs[n].senderPubkey == p {
        assert Sub(txs, p)[..|Sub(txs, p)| - 1] == Sub(txs[..n], p);
      }
    }
  }

  /** The hash inputs that must not collide: every identifier preimage and every sender key. */
  ghost predicate Covered(txs: seq<Transaction>, inputs: set<Bytes>) {
    IdsCovered(txs, inputs) && forall tx :: tx in txs ==> tx.senderPubkey in inputs
  }

  lemma CoveredPrefix(txs: seq<Transaction>, inputs: set<Bytes>)
    requires txs != [] && Covered(txs, inputs)
    ensures Covered(txs[..|txs| - 1], inputs)
    ensures txs[..|txs| - 1] + [txs[|txs| - 1]] == txs && txs[|txs| - 1].senderPubkey in inputs
  {
    assert forall tx :: tx in txs[..|txs| - 1] ==> tx in txs;
  }

  /** What decides one turn of the loop. */
  lemma ApplySucceeds(c: Primitives, cfg: ExecutionConfig, tx: Transaction, index: nat,
                      state: Contents, nonces: Nonces, ids: seq<Bytes>)
    ensures Apply(c, cfg, tx, index, state, nonces, ids).Success? <==>
            TxId(c, tx).Some? && TxId(c, tx).value !in ids
            && Validate(c, tx, cfg, NonceOf(nonces, tx.senderPubkey)) == None
  {
    hide TxId, Validate;
  }

  /** What one successful turn writes. */
  lemma ApplyWrites(c: Primitives, cfg: ExecutionConfig, tx: Transaction, index: nat,
                    state: Contents, nonces: Nonces, ids: seq<Bytes>)
    requires Apply(c, cfg, tx, index, state, nonces, ids).Success?
    ensures Apply(c, cfg, tx, index, state, nonces, ids).state == state[tx.key := tx.valueBytes]
    ensures Namespace(c, tx.senderPubkey) <= tx.key
  {
    hide TxId, Namespace;
  }

  /** The state of a block, seen in the namespace of p, is that of the transactions of p alone. */
  lemma {:induction false} NamespaceView(c: Primitives, cfg: ExecutionConfig, txs: seq<Transaction>, state: Contents,
                                         nonces: Nonces, inputs: set<Bytes>, p: Bytes, k: Bytes)
    requires CollisionFree(c, inputs) && Covered(txs, inputs) && p in inputs
    requires Execute(c, cfg, txs, state, nonces).Success? && Execute(c, cfg, Sub(txs, p), state, nonces).Success?
    requires Namespace(c, p) <= k
    ensures Lookup(Execute(c, cfg, txs, state, nonces).state, k)
         == Lookup(Execute(c, cfg, Sub(txs, p), state, nonces).state, k)
  {
    hide Apply, Namespace, Execute, IdPreimage;
    if txs != [] {
      var n := |txs| - 1;
      var t := txs[n];
      CoveredPrefix(txs, inputs);
      ExecuteSnoc(c, cfg, txs[..n], t, state, nonces);
      var out := Execute(c, cfg, txs[..n], state, nonces);
      ApplyWrites(c, cfg, t, n, out.state, out.nonces, out.ids);
      if t.senderPubkey == p {
        ExecuteSnoc(c, cfg, Sub(txs[..n], p), t, state, nonces);
        var part := Execute(c, cfg, Sub(txs[..n], p), state, nonces);
        ApplyWrites(c, cfg, t, |Sub(txs[..n], p)|, part.state, part.nonces, part.ids);
      } else if t.key == k {
        NamespacesAreDisjoint(c, p, t.senderPubkey, k);
      }
      NamespaceView(c, cfg, txs[..n], state, nonces, inputs, p, k);
    }
  }

  lemma {:induction false} OutsideNamespaces(c: Primitives, cfg: ExecutionConfig, txs: seq<Transaction>,
                                             state: Contents, nonces: Nonces, k: Bytes)
    requires Execute(c, cfg, txs, state, nonces).Success?
    requires forall tx :: tx in txs ==> !(Namespace(c, tx.senderPubkey) <= k)
    ensures Lookup(Execute(c, cfg, txs, state, nonces).state, k) == Lookup(state, k)
  {
    hide Apply, Namespace;
    if txs != [] {
      var n := |txs| - 1;
      var out := Execute(c, cfg, txs[..n], state, nonces);
      ApplyWrites(c, cfg, txs[n], n, out.state, out.nonces, out.ids);
      OutsideNamespaces(c, cfg, txs[..n], state, nonces, k);
    }
  }

  /** The identifiers of one sender's part are among those of the block. */
  lemma SubIds(c: Primitives, cfg: ExecutionConfig, txs: seq<Transaction>, state: Contents, nonces: Nonces,
               p: Bytes, id: Bytes)
    requires Execute(c, cfg, txs, state, nonces).Success? && Execute(c, cfg, Sub(txs, p), state, nonces).Success?
    requires id in Execute(c, cfg, Sub(txs, p), state, nonces).ids
    ensures id in Execute(c, cfg, txs, state, nonces).ids
  {
    hide TxId, Execute;
    var ids, subIds := Execute(c, cfg, txs, state, nonces).ids, Execute(c, cfg, Sub(txs, p), state, nonces).ids;
    SuccessIds(c, cfg, txs, state, nonces);
    SuccessIds(c, cfg, Sub(txs, p), state, nonces);
    SubMembers(txs, p);
    var i :| 0 <= i < |subIds| && subIds[i] == id;
    assert Sub(txs, p)[i] in txs;
    var j :| 0 <= j < |txs| && txs[j] == Sub(txs, p)[i];
    assert ids[j] == id;
  }

  lemma SameExpectedNonce(c: Primitives, cfg: ExecutionConfig, txs: seq<Transaction>, state: Contents,
                          nonces: Nonces, p: Bytes)
    requires Execute(c, cfg, txs, state, nonces).Success? && Execute(c, cfg, Sub(txs, p), state, nonces).Success?
    ensures NonceOf(Execute(c, cfg, txs, state, nonces).nonces, p)
         == NonceOf(Execute(c, cfg, Sub(txs, p), state, nonces).nonces, p)
  {
    hide Execute;
    NonceAfter(c, cfg, txs, state, nonces, p);
    NonceAfter(c, cfg, Sub(txs, p), state, nonces, p);
    SubCount(txs, p);
  }

  /** A block that succeeds succeeds for every sender alone. */
  lemma {:induction false} PartSucceeds(c: Primitives, cfg: ExecutionConfig, txs: seq<Transaction>, state: Contents,
                                        nonces: Nonces, p: Bytes)
    requires Execute(c, cfg, txs, state, nonces).Success?
    ensures Execute(c, cfg, Sub(txs, p), state, nonces).Success?
  {
    hide TxId, Validate;
    if txs != [] {
      var n := |txs| - 1;
      var t := txs[n];
      PartSucceeds(c, cfg, txs[..n], state, nonces, p);
      if t.senderPubkey == p {
        var whole := Execute(c, cfg, txs[..n], state, nonces);
        var part := Execute(c, cfg, Sub(txs[..n], p), state, nonces);
        SameExpectedNonce(c, cfg, txs[..n], state, nonces, p);
        if TxId(c, t).Some? && TxId(c, t).value in part.ids {
          SubIds(c, cfg, txs[..n], state, nonces, p, TxId(c, t).value);
        }
        ApplySucceeds(c, cfg, t, n, whole.state, whole.nonces, whole.ids);
        ApplySucceeds(c, cfg, t, |Sub(txs[..n], p)|, part.state, part.nonces, part.ids);
        ExecuteSnoc(c, cfg, Sub(txs[..n], p), t, state, nonces);
      }
    }
  }

  ghost predicate EveryPartSucceeds(c: Primitives, cfg: ExecutionConfig, txs: seq<Transaction>, state: Contents,
                                    nonces: Nonces) {
    forall p :: Execute(c, cfg, Sub(txs, p), state, nonces).Success?
  }

  /** A block whose every sender succeeds alone succeeds. */
  lemma {:induction false} PartsSuffice(c: Primitives, cfg: ExecutionConfig, txs: seq<Transaction>, state: Contents,
                                        nonces: Nonces, inputs: set<Bytes>)
    requires CollisionFree(c, inputs) && Covered(txs, inputs)
    requires EveryPartSucceeds(c, cfg, txs, state, nonces)
    ensures Execute(c, cfg, txs, state, nonces).Success?
  {
    hide TxId, Validate;
    if txs != [] {
      var n := |txs| - 1;
      var t := txs[n];
      var p := t.senderPubkey;
      CoveredPrefix(txs, inputs);
      ExecuteSnoc(c, cfg, Sub(txs[..n], p), t, state, nonces);
      assert Execute(c, cfg, Sub(txs, p), state, nonces).Success?;
      forall q ensures Execute(c, cfg, Sub(txs[..n], q), state, nonces).Success? {
        assert Execute(c, cfg, Sub(txs, q), state, nonces).Success?;
      }
      PartsSuffice(c, cfg, txs[..n], state, nonces, inputs);
      var whole := Execute(c, cfg, txs[..n], state, nonces);
      var part := Execute(c, cfg, Sub(txs[..n], p), state, nonces);
      SameExpectedNonce(c, cfg, txs[..n], state, nonces, p);
      ApplySucceeds(c, cfg, t, |Sub(txs[..n], p)|, part.state, part.nonces, part.ids);
      ApplySucceeds(c, cfg, t, n, whole.state, whole.nonces, whole.ids);
      ValidKeyIsNotEmpty(c, t, cfg, NonceOf(part.nonces, p));
      if TxId(c, t).value in whole.ids {
        DuplicateFailsNonce(c, cfg, txs[..n], state, nonces, t, inputs);
      }
    }
  }

  lemma {:induction false} NonceDomain(c: Primitives, cfg: ExecutionConfig, txs: seq<Transaction>, state: Contents,
                                       nonces: Nonces)
    requires Execute(c, cfg, txs, state, nonces).Success?
    ensures forall p :: p in Execute(c, cfg, txs, state, nonces).nonces <==> p in nonces || Count(txs, p) > 0
  {
    hide TxId, Validate;
    if txs != [] {
      NonceDomain(c, cfg, txs[..|txs| - 1], state, nonces);
    }
  }

  /** Two lists with the same part for every sender. */
  ghost predicate SameParts(a: seq<Transaction>, b: seq<Transaction>) {
    forall p :: Sub(a, p) == Sub(b, p)
  }

  lemma SamePartsCovered(a: seq<Transaction>, b: seq<Transaction>, inputs: set<Bytes>)
    requires SameParts(a, b) && Covered(a, inputs)
    ensures Covered(b, inputs)
    ensures forall tx :: tx in b ==> tx in a
  {
    hide IdPreimage;
    forall tx | tx in b ensures tx in a {
      SubMembers(b, tx.senderPubkey);
      SubMembers(a, tx.senderPubkey);
      assert tx in Sub(b, tx.senderPubkey);
    }
  }

  lemma SameKey(c: Primitives, cfg: ExecutionConfig, a: seq<Transaction>, b: seq<Transaction>, state: Contents,
                nonces: Nonces, inputs: set<Bytes>, k: Bytes)
    requires CollisionFree(c, inputs) && Covered(a, inputs) && Covered(b, inputs) && SameParts(a, b)
    requires forall tx :: tx in b ==> tx in a
    requires Execute(c, cfg, a, state, nonces).Success? && Execute(c, cfg, b, state, nonces).Success?
    ensures Lookup(Execute(c, cfg, a, state, nonces).state, k) == Lookup(Execute(c, cfg, b, state, nonces).state, k)
  {
    hide Execute, Namespace, IdPreimage;
    if tx :| tx in a && Namespace(c, tx.senderPubkey) <= k {
      var p := tx.senderPubkey;
      assert Sub(a, p) == Sub(b, p);
      PartSucceeds(c, cfg, a, state, nonces, p);
      NamespaceView(c, cfg, a, state, nonces, inputs, p, k);
      NamespaceView(c, cfg, b, state, nonces, inputs, p, k);
    } else {
      OutsideNamespaces(c, cfg, a, state, nonces, k);
      OutsideNamespaces(c, cfg, b, state, nonces, k);
    }
  }

  /** Interleaving independence: same success flag, same post-state, same nonces. */
  lemma InterleavingIsIrrelevant(c: Primitives, cfg: ExecutionConfig, a: seq<Transaction>, b: seq<Transaction>,
                                 state: Contents, nonces: Nonces, inputs: set<Bytes>)
    requires CollisionFree(c, inputs) && Covered(a, inputs) && SameParts(a, b)
    ensures var ra, rb := Execute(c, cfg, a, state, nonces), Execute(c, cfg, b, state, nonces);
            (ra.Success? <==> rb.Success?) && (ra.Success? ==> ra.state == rb.state && ra.nonces == rb.nonces)
  {
    hide Execute, IdPreimage;
    SamePartsCovered(a, b, inputs);
    var ra, rb := Execute(c, cfg, a, state, nonces), Execute(c, cfg, b, state, nonces);
    if ra.Success? || rb.Success? {
      forall p ensures Execute(c, cfg, Sub(a, p), state, nonces).Success? {
        assert Sub(a, p) == Sub(b, p);
        if ra.Success? { PartSucceeds(c, cfg, a, state, nonces, p); }
        else { PartSucceeds(c, cfg, b, state, nonces, p); }
      }
      assert forall p :: Sub(a, p) == Sub(b, p);
      PartsSuffice(c, cfg, a, state, nonces, inputs);
      PartsSuffice(c, cfg, b, state, nonces, inputs);
      forall k ensures Lookup(ra.state, k) == Lookup(rb.state, k) {
        SameKey(c, cfg, a, b, state, nonces, inputs, k);
      }
      SameMap(ra.state, rb.state);
      SameNonces(c, cfg, a, b, state, nonces);
    }
  }

  lemma SameMap(m: Contents, m': Contents)
    requires forall k :: Lookup(m, k) == Lookup(m', k)
    ensures m == m'
  {
    forall k ensures k in m <==> k in m' {
      assert Lookup(m, k) == Lookup(m', k);
    }
    forall k | k in m ensures m[k] == m'[k] {
      assert Lookup(m, k) == Lookup(m', k);
    }
  }

  lemma SameNonces(c: Primitives, cfg: ExecutionConfig, a: seq<Transaction>, b: seq<Transaction>,
                   state: Contents, nonces: Nonces)
    requires SameParts(a, b)
    requires Execute(c, cfg, a, state, nonces).Success? && Execute(c, cfg, b, state, nonces).Success?
    ensures Execute(c, cfg, a, state, nonces).nonces == Execute(c, cfg, b, state, nonces).nonces
  {
    hide Execute;
    var na, nb := Execute(c, cfg, a, state, nonces).nonces, Execute(c, cfg, b, state, nonces).nonces;
    NonceDomain(c, cfg, a, state, nonces);
    NonceDomain(c, cfg, b, state, nonces);
    forall p ensures (p in na <==> p in nb) && NonceOf(na, p) == NonceOf(nb, p) {
      assert Sub(a, p) == Sub(b, p);
      SubCount(a, p);
      SubCount(b, p);
      NonceAfter(c, cfg, a, state, nonces, p);
      NonceAfter(c, cfg, b, state, nonces, p);
    }
  }
}
