/** Exactly which blocks execute, which bodies are valid, and what they leave behind, in terms of the transactions
    alone (src/executor.py, src/transaction.py, src/block.py). */
module Acceptance {
  import opened Wrappers
  import opened Ordering
  import opened Encoding
  import opened Crypto
  import opened Transactions
  import opened Blocks
  import opened States
  import opened Executor
  import opened Bodies

  // ---------- one transaction ----------

  /** The key starts with the lowercase hexadecimal digest of the sender's key and a slash. */
  ghost predicate InOwnNamespace(c: Primitives, tx: Transaction) {
    Hex(c.hash(tx.senderPubkey)) + [47] <= tx.key
  }

  /** The signature verifies for the sender, the domain "TX:" followed by the chain, and the unsigned bytes. */
  ghost predicate Authentic(c: Primitives, cfg: ExecutionConfig, tx: Transaction) {
    Transactions.UnsignedBytes(tx).Some?
    && c.verify(tx.senderPubkey, [84, 88, 58] + cfg.chainId, Transactions.UnsignedBytes(tx).value, tx.signature)
  }

  /** The transaction alone is in order: chain, ranges, lengths, sizes, namespace and signature. */
  ghost predicate WellFormed(c: Primitives, cfg: ExecutionConfig, tx: Transaction) {
    tx.chainId == cfg.chainId && 0 <= tx.nonce < 0x1_0000_0000_0000_0000
    && |tx.senderPubkey| == 32 && |tx.signature| == 64
    && |tx.key| <= cfg.maxKeySize && |tx.valueBytes| <= cfg.maxValueSize
    && InOwnNamespace(c, tx) && Authentic(c, cfg, tx)
  }

  /** The i-th transaction may follow those before it: its identifier is computable and new, and its nonce is next. */
  ghost predicate Admissible(c: Primitives, cfg: ExecutionConfig, txs: seq<Transaction>, nonces: Nonces, i: nat)
    requires i < |txs|
  {
    TxId(c, txs[i]).Some? && (forall j :: 0 <= j < i ==> TxId(c, txs[j]) != TxId(c, txs[i]))
    && txs[i].nonce == NonceOf(nonces, txs[i].senderPubkey) + Count(txs[..i], txs[i].senderPubkey)
    && WellFormed(c, cfg, txs[i])
  }

  ghost predicate AllAdmissible(c: Primitives, cfg: ExecutionConfig, txs: seq<Transaction>, nonces: Nonces) {
    forall i :: 0 <= i < |txs| ==> Admissible(c, cfg, txs, nonces, i)
  }

  /** The guards in the source's order. */
  ghost predicate Passes(c: Primitives, cfg: ExecutionConfig, tx: Transaction, expected: int, guard: nat) {
    match guard
    case 0 => tx.chainId == cfg.chainId
    case 1 => tx.nonce == expected
    case 2 => 0 <= tx.nonce < 0x1_0000_0000_0000_0000
    case 3 => |tx.senderPubkey| == 32
    case 4 => |tx.signature| == 64
    case 5 => |tx.key| <= cfg.maxKeySize
    case 6 => |tx.valueBytes| <= cfg.maxValueSize
    case 7 => InOwnNamespace(c, tx)
    case 8 => Transactions.UnsignedBytes(tx).Some?
    case 9 => Authentic(c, cfg, tx)
    case _ => true
  }

  /** The guard an error message belongs to. */
  function GuardOf(e: TxError): nat {
    match e
    case InvalidChainId => 0
    case InvalidNonce => 1
    case InvalidNonceRange => 2
    case InvalidSenderPubkey => 3
    case InvalidSignatureLength => 4
    case KeyTooLarge => 5
    case ValueTooLarge => 6
    case InvalidNamespace => 7
    case NotEncodable => 8
    case InvalidSignature => 9
  }

  /** The error names the first guard that fails. */
  ghost predicate FirstFailure(c: Primitives, cfg: ExecutionConfig, tx: Transaction, expected: int, e: TxError) {
    !Passes(c, cfg, tx, expected, GuardOf(e)) && forall h: nat :: h < GuardOf(e) ==> Passes(c, cfg, tx, expected, h)
  }

  /** Validation passes exactly when no guard fails, and otherwise names the first one that does. */
  lemma FirstFailureIsNamed(c: Primitives, cfg: ExecutionConfig, tx: Transaction, expected: int)
    ensures match Validate(c, tx, cfg, expected)
            case None => WellFormed(c, cfg, tx) && tx.nonce == expected
            case Some(e) => FirstFailure(c, cfg, tx, expected, e) && !(WellFormed(c, cfg, tx) && tx.nonce == expected)
  {
    assert TX_DOMAIN == [84, 88, 58];
    hide Hex, Transactions.UnsignedBytes;
  }

  // ---------- a block ----------

  /** The nonce expected of the i-th transaction. */
  function Expected(txs: seq<Transaction>, nonces: Nonces, i: nat): int
    requires i < |txs|
  {
    NonceOf(nonces, txs[i].senderPubkey) + Count(txs[..i], txs[i].senderPubkey)
  }

  /** The i-th transaction is the first that may not follow those before it. */
  ghost predicate FirstBad(c: Primitives, cfg: ExecutionConfig, txs: seq<Transaction>, nonces: Nonces, i: nat) {
    i < |txs| && !Admissible(c, cfg, txs, nonces, i)
    && forall j :: 0 <= j < i ==> Admissible(c, cfg, txs, nonces, j)
  }

  ghost predicate Repeats(c: Primitives, txs: seq<Transaction>, i: nat)
    requires i < |txs|
  {
    exists j :: 0 <= j < i && TxId(c, txs[j]) == TxId(c, txs[i])
  }

  /** The reason given for a rejected transaction. */
  ghost predicate Blames(c: Primitives, cfg: ExecutionConfig, txs: seq<Transaction>, nonces: Nonces, i: nat,
                         e: ExecutionError)
    requires i < |txs|
  {
    TxId(c, txs[i]).Some?
    && match e
       case DuplicateTxId => Repeats(c, txs, i)
       case Invalid(error) => !Repeats(c, txs, i) && FirstFailure(c, cfg, txs[i], Expected(txs, nonces, i), error)
  }

  /** What an outcome of the block says about its transactions. */
  ghost predicate Explains(c: Primitives, cfg: ExecutionConfig, txs: seq<Transaction>, nonces: Nonces, out: Outcome) {
    match out
    case Success(_, _, _) => AllAdmissible(c, cfg, txs, nonces)
    case Rejected(i, e) => FirstBad(c, cfg, txs, nonces, i) && Blames(c, cfg, txs, nonces, i, e)
    case Raised => exists i: nat :: FirstBad(c, cfg, txs, nonces, i) && TxId(c, txs[i]) == None
  }

  lemma PrefixAdmissible(c: Primitives, cfg: ExecutionConfig, txs: seq<Transaction>, nonces: Nonces, n: nat, i: nat)
    requires i < n <= |txs|
    ensures Admissible(c, cfg, txs[..n], nonces, i) <==> Admissible(c, cfg, txs, nonces, i)
    ensures Repeats(c, txs[..n], i) <==> Repeats(c, txs, i)
    ensures Expected(txs[..n], nonces, i) == Expected(txs, nonces, i)
  {
    hide TxId, WellFormed, Count;
    assert txs[..n][..i] == txs[..i];
    assert forall j :: 0 <= j <= i ==> txs[..n][j] == txs[j];
  }

  lemma PrefixFirstBad(c: Primitives, cfg: ExecutionConfig, txs: seq<Transaction>, nonces: Nonces, n: nat, i: nat)
    requires n <= |txs| && FirstBad(c, cfg, txs[..n], nonces, i)
    ensures FirstBad(c, cfg, txs, nonces, i) && txs[..n][i] == txs[i]
  {
    hide Admissible;
    forall j: nat | j <= i ensures Admissible(c, cfg, txs[..n], nonces, j) <==> Admissible(c, cfg, txs, nonces, j) {
      PrefixAdmissible(c, cfg, txs, nonces, n, j);
    }
  }

  lemma PrefixExplains(c: Primitives, cfg: ExecutionConfig, txs: seq<Transaction>, nonces: Nonces, n: nat, out: Outcome)
    requires n <= |txs| && !out.Success? && Explains(c, cfg, txs[..n], nonces, out)
    ensures Explains(c, cfg, txs, nonces, out) && !AllAdmissible(c, cfg, txs, nonces)
  {
    hide Admissible, Repeats, FirstFailure, TxId;
    match out {
      case Rejected(i, e) =>
        PrefixFirstBad(c, cfg, txs, nonces, n, i);
        PrefixAdmissible(c, cfg, txs, nonces, n, i);
        hide Expected;
      case Raised =>
        var i: nat :| FirstBad(c, cfg, txs[..n], nonces, i) && TxId(c, txs[..n][i]) == None;
        PrefixFirstBad(c, cfg, txs, nonces, n, i);
    }
  }

  lemma AdmissibleMeans(c: Primitives, cfg: ExecutionConfig, txs: seq<Transaction>, nonces: Nonces, i: nat)
    requires i < |txs|
    ensures Admissible(c, cfg, txs, nonces, i) <==>
            TxId(c, txs[i]).Some? && !Repeats(c, txs, i) && txs[i].nonce == Expected(txs, nonces, i)
            && WellFormed(c, cfg, txs[i])
  {
    hide TxId, WellFormed, Count;
  }

  lemma SeenMeansRepeats(c: Primitives, txs: seq<Transaction>, ids: seq<Bytes>, i: nat)
    requires i < |txs| && |ids| == i && forall j :: 0 <= j < i ==> TxId(c, txs[j]) == Some(ids[j])
    requires TxId(c, txs[i]).Some?
    ensures TxId(c, txs[i]).value in ids <==> Repeats(c, txs, i)
  {
    hide TxId;
  }

  /** One turn of the loop, told by its three tests. */
  lemma ApplyTests(c: Primitives, cfg: ExecutionConfig, tx: Transaction, index: nat, s: Contents, ns: Nonces,
                   ids: seq<Bytes>)
    ensures var error := Validate(c, tx, cfg, NonceOf(ns, tx.senderPubkey));
            match Apply(c, cfg, tx, index, s, ns, ids)
            case Success(_, _, _) => TxId(c, tx).Some? && TxId(c, tx).value !in ids && error == None
            case Rejected(i, DuplicateTxId) => i == index && TxId(c, tx).Some? && TxId(c, tx).value in ids
            case Rejected(i, Invalid(e)) =>
              i == index && TxId(c, tx).Some? && TxId(c, tx).value !in ids && error == Some(e)
            case Raised => TxId(c, tx) == None
  {
    hide TxId, Validate;
  }

  /** The last transaction, when those before it were applied. */
  lemma LastDecides(c: Primitives, cfg: ExecutionConfig, txs: seq<Transaction>, state: Contents, nonces: Nonces,
                    s: Contents, ns: Nonces, ids: seq<Bytes>)
    requires txs != [] && Execute(c, cfg, txs[..|txs| - 1], state, nonces) == Success(s, ns, ids)
    ensures var n := |txs| - 1;
            match Apply(c, cfg, txs[n], n, s, ns, ids)
            case Success(_, _, _) => Admissible(c, cfg, txs, nonces, n)
            case Rejected(i, e) => i == n && !Admissible(c, cfg, txs, nonces, n) && Blames(c, cfg, txs, nonces, n, e)
            case Raised => !Admissible(c, cfg, txs, nonces, n) && TxId(c, txs[n]) == None
  {
    var n := |txs| - 1;
    var tx := txs[n];
    LastFacts(c, cfg, txs, state, nonces, s, ns, ids);
    hide TxId, Validate, WellFormed, FirstFailure, Execute, Expected, NonceOf, Admissible, Repeats, Apply;
    FirstFailureIsNamed(c, cfg, tx, Expected(txs, nonces, n));
    AdmissibleMeans(c, cfg, txs, nonces, n);
    ApplyTests(c, cfg, tx, n, s, ns, ids);
  }

  lemma LastFacts(c: Primitives, cfg: ExecutionConfig, txs: seq<Transaction>, state: Contents, nonces: Nonces,
                  s: Contents, ns: Nonces, ids: seq<Bytes>)
    requires txs != [] && Execute(c, cfg, txs[..|txs| - 1], state, nonces) == Success(s, ns, ids)
    ensures var n := |txs| - 1;
            NonceOf(ns, txs[n].senderPubkey) == Expected(txs, nonces, n)
            && (TxId(c, txs[n]).Some? ==> (TxId(c, txs[n]).value in ids <==> Repeats(c, txs, n)))
  {
    var n := |txs| - 1;
    SuccessIds(c, cfg, txs[..n], state, nonces);
    NonceAfter(c, cfg, txs[..n], state, nonces, txs[n].senderPubkey);
    hide TxId, Execute, Count;
    assert forall j :: 0 <= j < n ==> txs[j] == txs[..n][j];
    if TxId(c, txs[n]).Some? {
      SeenMeansRepeats(c, txs, ids, n);
    }
  }

  /** A block executes exactly when every transaction may follow those before it. A rejection names the first one that
      may not, and why; the exception of an identifier that cannot be computed is raised at the first one too. */
  lemma {:induction false} ExecutesExactlyWhen(c: Primitives, cfg: ExecutionConfig, txs: seq<Transaction>,
                                               state: Contents, nonces: Nonces)
    ensures Execute(c, cfg, txs, state, nonces).Success? <==> AllAdmissible(c, cfg, txs, nonces)
    ensures Explains(c, cfg, txs, nonces, Execute(c, cfg, txs, state, nonces))
  {
    hide Admissible, Blames, Apply;
    if txs != [] {
      var n := |txs| - 1;
      ExecutesExactlyWhen(c, cfg, txs[..n], state, nonces);
      var before := Execute(c, cfg, txs[..n], state, nonces);
      if before.Success? {
        LastDecides(c, cfg, txs, state, nonces, before.state, before.nonces, before.ids);
        forall i: nat | i < n ensures Admissible(c, cfg, txs, nonces, i) {
          PrefixAdmissible(c, cfg, txs, nonces, n, i);
        }
        assert !Execute(c, cfg, txs, state, nonces).Success? ==> FirstBad(c, cfg, txs, nonces, n);
      } else {
        PrefixExplains(c, cfg, txs, nonces, n, before);
      }
    }
  }

  // ---------- what a block leaves behind ----------

  /** The i-th transaction is the last one that writes the key. */
  ghost predicate LastWriter(txs: seq<Transaction>, i: nat, key: Bytes) {
    i < |txs| && txs[i].key == key && forall j :: i < j < |txs| ==> txs[j].key != key
  }

  ghost predicate Written(txs: seq<Transaction>, key: Bytes) {
    exists i: nat :: i < |txs| && txs[i].key == key
  }

  lemma WrittenGrows(txs: seq<Transaction>, n: nat, key: Bytes)
    requires n <= |txs|
    ensures Written(txs[..n], key) ==> Written(txs, key)
  {
    if Written(txs[..n], key) {
      var i: nat :| i < n && txs[..n][i].key == key;
      assert txs[i].key == key;
    }
  }

  /** After a block each key holds the value of its last writer, and keys nobody writes are as before. */
  lemma {:induction false} BlockWrites(c: Primitives, cfg: ExecutionConfig, txs: seq<Transaction>, state: Contents,
                                       nonces: Nonces, key: Bytes)
    requires Execute(c, cfg, txs, state, nonces).Success?
    ensures var after := Execute(c, cfg, txs, state, nonces).state;
            (forall i: nat :: LastWriter(txs, i, key) ==> key in after && after[key] == txs[i].valueBytes)
            && (!Written(txs, key) ==>
                  (key in after <==> key in state) && (key in after ==> after[key] == state[key]))
  {
    hide TxId, Validate;
    if txs != [] {
      var n := |txs| - 1;
      BlockWrites(c, cfg, txs[..n], state, nonces, key);
      var after := Execute(c, cfg, txs, state, nonces).state;
      forall i: nat | LastWriter(txs, i, key) ensures key in after && after[key] == txs[i].valueBytes {
        assert txs[n] == txs[|txs| - 1];
        if i < n {
          assert LastWriter(txs[..n], i, key);
        }
      }
      if !Written(txs, key) {
        assert txs[n].key != key;
        WrittenGrows(txs, n, key);
      }
    }
  }

  // ---------- a body ----------

  /** The identifiers of the body hash to the root: a count, then the identifiers in order. */
  ghost predicate RootIs(c: Primitives, txs: seq<Transaction>, root: Bytes) {
    exists ids :: TxIds(c, txs) == Some(ids) && TxRoot(c, ids) == Some(root)
  }

  ghost predicate HasRoot(c: Primitives, txs: seq<Transaction>) {
    TxIds(c, txs).Some? && TxRoot(c, TxIds(c, txs).value).Some?
  }

  /** A body is valid exactly when it executes, its identifiers hash to the header's root, and the state it leaves
      hashes to the header's commitment. Refusals come in the order root, execution, state. */
  lemma BodyValidExactlyWhen(c: Primitives, cfg: ExecutionConfig, header: BlockHeader, txs: seq<Transaction>,
                             state: Contents, nonces: Nonces)
    ensures var verdict := ValidateBody(c, cfg, header, txs, state, nonces);
            var out := Execute(c, cfg, txs, state, nonces);
            (verdict.Valid? <==> AllAdmissible(c, cfg, txs, nonces) && RootIs(c, txs, header.txRoot)
                                 && out.Success? && StateHash(c, out.state) == Some(header.stateHash))
            && (verdict.TxRootMismatch? <==> HasRoot(c, txs) && !RootIs(c, txs, header.txRoot))
            && (verdict.ExecutionRejected? ==>
                  RootIs(c, txs, header.txRoot) && out == Rejected(verdict.index, verdict.error))
            && (verdict.StateHashMismatch? ==> RootIs(c, txs, header.txRoot) && out.Success?
                                               && StateHash(c, out.state).Some?
                                               && StateHash(c, out.state) != Some(header.stateHash))
            && (verdict.BodyRaised? ==> !HasRoot(c, txs) || out.Raised?
                                        || (out.Success? && StateHash(c, out.state) == None))
  {
    ExecutesExactlyWhen(c, cfg, txs, state, nonces);
    hide TxIds, TxRoot, Execute, StateHash, AllAdmissible, Explains;
    if TxIds(c, txs).Some? && TxRoot(c, TxIds(c, txs).value) == Some(header.txRoot) {
      assert RootIs(c, txs, header.txRoot);
    }
  }

  /** The root payload is the eight-byte count and then the 32-byte identifiers in body order. */
  lemma RootLayout(ids: seq<Bytes>, payload: Bytes, i: nat)
    requires TxRootPayload(ids) == Some(payload) && i < |ids|
    ensures |payload| == 8 + 32 * |ids| && FromBigEndian(payload[..8]) == |ids|
    ensures payload[8 + 32 * i..40 + 32 * i] == ids[i]
  {
    var count, body := EncodeUint64(|ids|).value, EncodeAll(IdChunk, ids).value;
    ChunkLayout(ids, body, i);
    hide IdChunk, EncodeAll;
    assert payload == count + body;
    Uint64Decodes(|ids|, count, []);
    assert count + [] == count && count[..8] == count;
    hide EncodeUint64, FromBigEndian, TxRootPayload;
    PairSlice(count, body, i);
  }

  lemma PairSlice(count: Bytes, body: Bytes, i: nat)
    requires |count| == 8 && 32 * i + 32 <= |body|
    ensures (count + body)[..8] == count && (count + body)[8 + 32 * i..40 + 32 * i] == body[32 * i..32 + 32 * i]
  {
  }

  lemma {:induction false} ChunkLayout(ids: seq<Bytes>, body: Bytes, i: nat)
    requires EncodeAll(IdChunk, ids) == Some(body) && i < |ids|
    ensures |body| == 32 * |ids| && body[32 * i..32 + 32 * i] == ids[i]
  {
    var rest := ids[1..];
    assert ids == [ids[0]] + rest;
    if rest == [] {
    } else {
      var tail := EncodeAll(IdChunk, rest).value;
      ChunkLayout(rest, tail, if i == 0 then 0 else i - 1);
      assert body == ids[0] + tail;
      if i > 0 {
        assert body[32 * i..32 + 32 * i] == tail[32 * (i - 1)..32 + 32 * (i - 1)];
      }
    }
  }
}
