/** Validation of a block body against its header (src/block.py, `validate_block_body`). */
module Bodies {
  import opened Wrappers
  import opened Ordering
  import opened Crypto
  import opened Transactions
  import opened States
  import opened Executor
  import opened Blocks

  datatype Verdict =
    | Valid(state: Contents, nonces: Nonces, ids: seq<Bytes>)
    | TxRootMismatch
    | ExecutionRejected(index: nat, error: ExecutionError)
    | StateHashMismatch
    | BodyRaised

  /** The identifiers of the body; None when one of them cannot be computed. */
  function TxIds(c: Primitives, txs: seq<Transaction>): Option<seq<Bytes>> {
    if txs == [] then Some([])
    else
      var ids :- TxIds(c, txs[..|txs| - 1]);
      var id :- TxId(c, txs[|txs| - 1]);
      Some(ids + [id])
  }

  ghost function ValidateBody(c: Primitives, cfg: ExecutionConfig, header: BlockHeader, txs: seq<Transaction>,
                              parentState: Contents, parentNonces: Nonces): Verdict {
    match TxIds(c, txs)
    case None => BodyRaised
    case Some(ids) =>
      match TxRoot(c, ids)
      case None => BodyRaised
      case Some(root) =>
        if root != header.txRoot then TxRootMismatch
        else match Execute(c, cfg, txs, parentState, parentNonces)
             case Raised => BodyRaised
             case Rejected(index, error) => ExecutionRejected(index, error)
             case Success(state, nonces, applied) =>
               match StateHash(c, state)
               case None => BodyRaised
               case Some(hash) => if hash != header.stateHash then StateHashMismatch else Valid(state, nonces, applied)
  }

  lemma {:induction false} TxIdsMatch(c: Primitives, txs: seq<Transaction>)
    requires TxIds(c, txs).Some?
    ensures var ids := TxIds(c, txs).value;
            |ids| == |txs| && forall i :: 0 <= i < |txs| ==> TxId(c, txs[i]) == Some(ids[i])
  {
    hide TxId;
    if txs != [] {
      TxIdsMatch(c, txs[..|txs| - 1]);
    }
  }

  lemma {:induction false} TxIdsPrefix(c: Primitives, before: seq<Transaction>, tx: Transaction,
                                       after: seq<Transaction>)
    ensures TxIds(c, before + [tx]) ==
            if TxIds(c, before).Some? && TxId(c, tx).Some? then Some(TxIds(c, before).value + [TxId(c, tx).value])
            else None
    ensures TxIds(c, before + [tx]).None? ==> TxIds(c, before + [tx] + after).None?
    decreases |after|
  {
    hide TxId;
    assert (before + [tx])[..|before|] == before;
    if after == [] {
      assert before + [tx] + after == before + [tx];
    } else {
      var n := |after| - 1;
      TxIdsPrefix(c, before, tx, after[..n]);
      assert (before + [tx] + after)[..|before| + 1 + n] == before + [tx] + after[..n];
    }
  }

  method ComputeTxIds(c: Primitives, txs: seq<Transaction>) returns (r: Option<seq<Bytes>>)
    ensures r == TxIds(c, txs)
  {
    hide TxId;
    var ids: seq<Bytes> := [];
    ghost var before: seq<Transaction> := [];
    for i := 0 to |txs|
      invariant before == txs[..i] && TxIds(c, before) == Some(ids)
    {
      assert txs == before + [txs[i]] + txs[i + 1..];
      TxIdsPrefix(c, before, txs[i], txs[i + 1..]);
      var id := TxId(c, txs[i]);
      if id == None {
        return None;
      }
      ids := ids + [id.value];
      before := before + [txs[i]];
    }
    assert before == txs;
    r := Some(ids);
  }

  /** `validate_block_body`. */
  method ValidateBlockBody(c: Primitives, cfg: ExecutionConfig, header: BlockHeader, txs: seq<Transaction>,
                           parent: State, parentNonces: Nonces) returns (r: Verdict, post: State)
    ensures r == ValidateBody(c, cfg, header, txs, parent.entries, parentNonces)
    ensures r.Valid? ==> post.entries == r.state
  {
    hide TxId, Execute, StateHash;
    post := parent;
    var ids := ComputeTxIds(c, txs);
    if ids == None {
      return BodyRaised, parent;
    }
    var root := ComputeTxRoot(c, ids.value);
    if root == None {
      return BodyRaised, parent;
    }
    if root.value != header.txRoot {
      return TxRootMismatch, parent;
    }
    var outcome, postState, postNonces := ExecuteBlock(c, cfg, txs, parent, parentNonces);
    match outcome {
      case Raised =>
        return BodyRaised, parent;
      case Rejected(index, error) =>
        return ExecutionRejected(index, error), parent;
      case Success(state, nonces, applied) =>
        var hash := postState.Commitment(c);
        if hash == None {
          return BodyRaised, parent;
        }
        if hash.value != header.stateHash {
          return StateHashMismatch, parent;
        }
        return Valid(postState.entries, postNonces, applied), postState;
    }
  }

  /** An accepted body is what the header commits to, executed on the parent. */
  lemma ValidMeans(c: Primitives, cfg: ExecutionConfig, header: BlockHeader, txs: seq<Transaction>,
                   state: Contents, nonces: Nonces)
    requires ValidateBody(c, cfg, header, txs, state, nonces).Valid?
    ensures var v := ValidateBody(c, cfg, header, txs, state, nonces);
            Execute(c, cfg, txs, state, nonces) == Success(v.state, v.nonces, v.ids)
            && TxIds(c, txs) == Some(v.ids) && TxRoot(c, v.ids) == Some(header.txRoot)
            && StateHash(c, v.state) == Some(header.stateHash)
  {
    hide TxId, Execute, StateHash, TxRoot;
    var v := ValidateBody(c, cfg, header, txs, state, nonces);
    SuccessIds(c, cfg, txs, state, nonces);
    TxIdsMatch(c, txs);
    var ids := TxIds(c, txs).value;
    assert |v.ids| == |ids| && forall i :: 0 <= i < |ids| ==> Some(v.ids[i]) == Some(ids[i]);
    assert v.ids == ids;
  }

  /** The inputs hashed to commit to a body: its identifier preimages and its root payload. */
  ghost predicate BodyCovered(c: Primitives, txs: seq<Transaction>, inputs: set<Bytes>) {
    IdsCovered(txs, inputs)
    && (TxIds(c, txs).Some? && TxRootPayload(TxIds(c, txs).value).Some?
        ==> TxRootPayload(TxIds(c, txs).value).value in inputs)
  }

  /** The transaction root commits to the whole body, in order. */
  lemma TxRootCommits(c: Primitives, a: seq<Transaction>, b: seq<Transaction>, inputs: set<Bytes>)
    requires TxIds(c, a).Some? && TxIds(c, b).Some?
    requires TxRoot(c, TxIds(c, a).value).Some? && TxRoot(c, TxIds(c, a).value) == TxRoot(c, TxIds(c, b).value)
    requires CollisionFree(c, inputs) && BodyCovered(c, a, inputs) && BodyCovered(c, b, inputs)
    ensures a == b
  {
    hide TxId, IdPreimage, TxRootPayload;
    TxRootPayloadIsInjective(TxIds(c, a).value, TxIds(c, b).value);
    TxIdsMatch(c, a);
    TxIdsMatch(c, b);
    forall i | 0 <= i < |a| ensures a[i] == b[i] {
      assert TxId(c, a[i]) == TxId(c, b[i]);
      TxIdCommits(c, a[i], b[i], inputs);
    }
  }
}
