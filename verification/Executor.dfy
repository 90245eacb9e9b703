/** Deterministic block execution (src/executor.py). */
module Executor {
  import opened Wrappers
  import opened Ordering
  import opened Crypto
  import opened Transactions
  import opened States

  type Nonces = map<Bytes, int>

  datatype ExecutionError = DuplicateTxId | Invalid(error: TxError)

  /** `Raised` stands for the exception of `tx.tx_id()`, which is computed outside the `try`. */
  datatype Outcome =
    | Success(state: Contents, nonces: Nonces, ids: seq<Bytes>)
    | Rejected(index: nat, error: ExecutionError)
    | Raised

  function NonceOf(nonces: Nonces, sender: Bytes): int {
    if sender in nonces then nonces[sender] else 0
  }

  /** One turn of the loop, on the working copies. */
  function Apply(c: Primitives, cfg: ExecutionConfig, tx: Transaction, index: nat,
                 state: Contents, nonces: Nonces, ids: seq<Bytes>): Outcome {
    var expected := NonceOf(nonces, tx.senderPubkey);
    match TxId(c, tx)
    case None => Raised
    case Some(id) =>
      if id in ids then Rejected(index, DuplicateTxId)
      else match Validate(c, tx, cfg, expected)
           case Some(e) => Rejected(index, Invalid(e))
           case None => Success(state[tx.key := tx.valueBytes], nonces[tx.senderPubkey := expected + 1], ids + [id])
  }

  /** The block applied in order to the parent state and nonces. */
  function Execute(c: Primitives, cfg: ExecutionConfig, txs: seq<Transaction>,
                   state: Contents, nonces: Nonces): Outcome {
    if txs == [] then Success(state, nonces, [])
    else
      var n := |txs| - 1;
      match Execute(c, cfg, txs[..n], state, nonces)
      case Success(s, ns, ids) => Apply(c, cfg, txs[n], n, s, ns, ids)
      case failure => failure
  }

  lemma ExecuteSnoc(c: Primitives, cfg: ExecutionConfig, txs: seq<Transaction>, tx: Transaction,
                    state: Contents, nonces: Nonces)
    ensures Execute(c, cfg, txs + [tx], state, nonces) ==
            match Execute(c, cfg, txs, state, nonces)
            case Success(s, ns, ids) => Apply(c, cfg, tx, |txs|, s, ns, ids)
            case failure => failure
  {
    assert (txs + [tx])[..|txs|] == txs;
  }

  /** A block that fails at some transaction fails there whatever follows. */
  lemma {:induction false} FailureIsFinal(c: Primitives, cfg: ExecutionConfig, before: seq<Transaction>,
                                          after: seq<Transaction>, state: Contents, nonces: Nonces)
    requires !Execute(c, cfg, before, state, nonces).Success?
    ensures Execute(c, cfg, before + after, state, nonces) == Execute(c, cfg, before, state, nonces)
    decreases |after|
  {
    if after == [] {
      assert before + after == before;
    } else {
      var n := |after| - 1;
      assert before + after == (before + after[..n]) + [after[n]];
      FailureIsFinal(c, cfg, before, after[..n], state, nonces);
      ExecuteSnoc(c, cfg, before + after[..n], after[n], state, nonces);
    }
  }

  /** What the loop needs after `before` was applied successfully: the next transaction decides. */
  lemma ExecuteStep(c: Primitives, cfg: ExecutionConfig, before: seq<Transaction>, tx: Transaction,
                    after: seq<Transaction>, state: Contents, nonces: Nonces,
                    s: Contents, ns: Nonces, ids: seq<Bytes>)
    requires Execute(c, cfg, before, state, nonces) == Success(s, ns, ids)
    ensures var r := Apply(c, cfg, tx, |before|, s, ns, ids);
            if r.Success? then Execute(c, cfg, before + [tx], state, nonces) == r
            else Execute(c, cfg, before + [tx] + after, state, nonces) == r
  {
    ExecuteSnoc(c, cfg, before, tx, state, nonces);
    if !Apply(c, cfg, tx, |before|, s, ns, ids).Success? {
      FailureIsFinal(c, cfg, before + [tx], after, state, nonces);
    }
  }

  /** `execute_block`. On failure the caller gets its own state object and nonce map back; on success a
      new state object; the parent's is never written. */
  method ExecuteBlock(c: Primitives, cfg: ExecutionConfig, txs: seq<Transaction>, parent: State, nonces: Nonces)
    returns (outcome: Outcome, postState: State, postNonces: Nonces)
    ensures outcome == Execute(c, cfg, txs, parent.entries, nonces)
    ensures outcome.Success? ==> fresh(postState) && postState.entries == outcome.state && postNonces == outcome.nonces
    ensures !outcome.Success? ==> postState == parent && postNonces == nonces
  {
    hide TxId, Validate;
    var working := parent.Copy();
    var workingNonces := nonces;
    var seen: set<Bytes> := {};
    var applied: seq<Bytes> := [];
    ghost var before: seq<Transaction> := [];
    for i := 0 to |txs|
      invariant before == txs[..i] && fresh(working)
      invariant forall id :: id in seen <==> id in applied
      invariant Execute(c, cfg, before, parent.entries, nonces) == Success(working.entries, workingNonces, applied)
    {
      var tx := txs[i];
      assert txs == before + [tx] + txs[i + 1..];
      ExecuteStep(c, cfg, before, tx, txs[i + 1..], parent.entries, nonces, working.entries, workingNonces, applied);
      var expected := NonceOf(workingNonces, tx.senderPubkey);
      var id := TxId(c, tx);
      if id == None {
        return Raised, parent, nonces;
      }
      if id.value in seen {
        return Rejected(i, DuplicateTxId), parent, nonces;
      }
      var error := Validate(c, tx, cfg, expected);
      if error.Some? {
        return Rejected(i, Invalid(error.value)), parent, nonces;
      }
      ValidKeyIsNotEmpty(c, tx, cfg, expected);
      var ok := working.Insert(tx.key, tx.valueBytes);
      workingNonces := workingNonces[tx.senderPubkey := expected + 1];
      seen := seen + {id.value};
      applied := applied + [id.value];
      before := before + [tx];
    }
    assert before == txs;
    return Success(working.entries, workingNonces, applied), working, workingNonces;
  }

  lemma ValidKeyIsNotEmpty(c: Primitives, tx: Transaction, cfg: ExecutionConfig, expected: int)
    requires Validate(c, tx, cfg, expected) == None
    ensures tx.key != [] && tx.nonce == expected && Namespace(c, tx.senderPubkey) <= tx.key
  {
  }

  // ---------- what a successful block looks like ----------

  function Count(txs: seq<Transaction>, sender: Bytes): nat {
    if txs == [] then 0
    else Count(txs[..|txs| - 1], sender) + (if txs[|txs| - 1].senderPubkey == sender then 1 else 0)
  }

  /** The i-th transaction carries the nonce that follows the i earlier ones of its sender. */
  ghost predicate NoncesInOrder(txs: seq<Transaction>, nonces: Nonces) {
    forall i :: 0 <= i < |txs| ==>
      txs[i].nonce == NonceOf(nonces, txs[i].senderPubkey) + Count(txs[..i], txs[i].senderPubkey)
  }

  lemma {:induction false} CountGrows(txs: seq<Transaction>, i: nat, j: nat, sender: Bytes)
    requires i <= j <= |txs|
    ensures Count(txs[..i], sender) <= Count(txs[..j], sender)
    ensures i < j && txs[i].senderPubkey == sender ==> Count(txs[..i], sender) < Count(txs[..j], sender)
    decreases j
  {
    if i < j {
      CountGrows(txs, i, j - 1, sender);
      assert txs[..j][..j - 1] == txs[..j - 1];
    }
  }

  /** The new nonce of a sender counts its transactions. */
  lemma {:induction false} NonceAfter(c: Primitives, cfg: ExecutionConfig, txs: seq<Transaction>,
                                      state: Contents, nonces: Nonces, p: Bytes)
    requires Execute(c, cfg, txs, state, nonces).Success?
    ensures NonceOf(Execute(c, cfg, txs, state, nonces).nonces, p) == NonceOf(nonces, p) + Count(txs, p)
  {
    if txs != [] {
      NonceAfter(c, cfg, txs[..|txs| - 1], state, nonces, p);
    }
  }

  /** The reported identifiers are those of the body, in order. */
  lemma {:induction false} SuccessIds(c: Primitives, cfg: ExecutionConfig, txs: seq<Transaction>,
                                      state: Contents, nonces: Nonces)
    requires Execute(c, cfg, txs, state, nonces).Success?
    ensures var ids := Execute(c, cfg, txs, state, nonces).ids;
            |ids| == |txs| && forall i :: 0 <= i < |txs| ==> TxId(c, txs[i]) == Some(ids[i])
  {
    hide TxId, Validate;
    if txs != [] {
      SuccessIds(c, cfg, txs[..|txs| - 1], state, nonces);
    }
  }

  lemma {:induction false} SuccessNonceAt(c: Primitives, cfg: ExecutionConfig, txs: seq<Transaction>,
                                          state: Contents, nonces: Nonces, i: nat)
    requires Execute(c, cfg, txs, state, nonces).Success? && i < |txs|
    ensures txs[i].nonce == NonceOf(nonces, txs[i].senderPubkey) + Count(txs[..i], txs[i].senderPubkey)
    decreases |txs|
  {
    hide TxId, Validate;
    var n := |txs| - 1;
    if i < n {
      SuccessNonceAt(c, cfg, txs[..n], state, nonces, i);
      assert txs[..n][..i] == txs[..i];
    } else {
      NonceAfter(c, cfg, txs[..n], state, nonces, txs[n].senderPubkey);
      var out := Execute(c, cfg, txs[..n], state, nonces);
      ValidKeyIsNotEmpty(c, txs[n], cfg, NonceOf(out.nonces, txs[n].senderPubkey));
    }
  }

  /** In a successful block senders use consecutive nonces, starting from the expected one. */
  lemma SuccessNonces(c: Primitives, cfg: ExecutionConfig, txs: seq<Transaction>, state: Contents, nonces: Nonces)
    requires Execute(c, cfg, txs, state, nonces).Success?
    ensures NoncesInOrder(txs, nonces)
  {
    hide TxId, Validate;
    forall i | 0 <= i < |txs|
      ensures txs[i].nonce == NonceOf(nonces, txs[i].senderPubkey) + Count(txs[..i], txs[i].senderPubkey)
    {
      SuccessNonceAt(c, cfg, txs, state, nonces, i);
    }
  }

  /** A sender never uses a nonce twice in one block. */
  lemma NoncesDistinct(txs: seq<Transaction>, nonces: Nonces, i: nat, j: nat)
    requires NoncesInOrder(txs, nonces) && i < j < |txs|
    requires txs[i].senderPubkey == txs[j].senderPubkey
    ensures txs[i].nonce < txs[j].nonce
  {
    CountGrows(txs, i, j, txs[i].senderPubkey);
  }

  // ---------- the duplicate guard ----------

  /** Execution without the duplicate guard. */
  function ExecuteUnguarded(c: Primitives, cfg: ExecutionConfig, txs: seq<Transaction>,
                            state: Contents, nonces: Nonces): Outcome {
    if txs == [] then Success(state, nonces, [])
    else
      var n := |txs| - 1;
      match ExecuteUnguarded(c, cfg, txs[..n], state, nonces)
      case Success(s, ns, ids) =>
        var expected := NonceOf(ns, txs[n].senderPubkey);
        (match TxId(c, txs[n])
         case None => Raised
         case Some(id) =>
           match Validate(c, txs[n], cfg, expected)
           case Some(e) => Rejected(n, Invalid(e))
           case None => Success(s[txs[n].key := txs[n].valueBytes], ns[txs[n].senderPubkey := expected + 1],
                                ids + [id]))
      case failure => failure
  }

  /** A repeated transaction fails the nonce guard anyway. */
  lemma DuplicateFailsNonce(c: Primitives, cfg: ExecutionConfig, txs: seq<Transaction>, state: Contents,
                            nonces: Nonces, tx: Transaction, inputs: set<Bytes>)
    requires CollisionFree(c, inputs) && IdsCovered(txs + [tx], inputs)
    requires Execute(c, cfg, txs, state, nonces).Success?
    requires TxId(c, tx).Some? && TxId(c, tx).value in Execute(c, cfg, txs, state, nonces).ids
    ensures tx in txs
    ensures tx.nonce < NonceOf(Execute(c, cfg, txs, state, nonces).nonces, tx.senderPubkey)
  {
    hide TxId, Validate, IdPreimage, Execute;
    var out := Execute(c, cfg, txs, state, nonces);
    SuccessIds(c, cfg, txs, state, nonces);
    var i :| 0 <= i < |out.ids| && out.ids[i] == TxId(c, tx).value;
    assert forall t :: t in [txs[i], tx] ==> t in txs + [tx];
    TxIdCommits(c, txs[i], tx, inputs);
    SuccessNonceAt(c, cfg, txs, state, nonces, i);
    NonceAfter(c, cfg, txs, state, nonces, tx.senderPubkey);
    assert txs[..|txs|] == txs;
    CountGrows(txs, i, |txs|, tx.senderPubkey);
  }

  /** The duplicate guard never changes which blocks succeed, nor what they produce. */
  lemma {:induction false} GuardIsRedundant(c: Primitives, cfg: ExecutionConfig, txs: seq<Transaction>,
                                            state: Contents, nonces: Nonces, inputs: set<Bytes>)
    requires CollisionFree(c, inputs) && IdsCovered(txs, inputs)
    ensures var g, u := Execute(c, cfg, txs, state, nonces), ExecuteUnguarded(c, cfg, txs, state, nonces);
            (g.Success? <==> u.Success?) && (g.Success? ==> g == u)
  {
    hide TxId, Validate, IdPreimage;
    if txs != [] {
      var n := |txs| - 1;
      assert txs[..n] + [txs[n]] == txs;
      GuardIsRedundant(c, cfg, txs[..n], state, nonces, inputs);
      var g := Execute(c, cfg, txs[..n], state, nonces);
      if g.Success? && TxId(c, txs[n]).Some? {
        if TxId(c, txs[n]).value in g.ids {
          DuplicateFailsNonce(c, cfg, txs[..n], state, nonces, txs[n], inputs);
        }
        if Validate(c, txs[n], cfg, NonceOf(g.nonces, txs[n].senderPubkey)) == None {
          ValidKeyIsNotEmpty(c, txs[n], cfg, NonceOf(g.nonces, txs[n].senderPubkey));
        }
      }
    }
  }
}
