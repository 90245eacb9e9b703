/** Transactions: encodings, identifiers, sender namespaces and the validation guards
    (src/transaction.py). Text fields are their NFC-normalised UTF-8 bytes. */
module Transactions {
  import opened Wrappers
  import opened Ordering
  import opened Encoding
  import opened Crypto

  const PUBLIC_KEY_LEN := 32
  const SIGNATURE_LEN := 64

  datatype Transaction = Transaction(
    chainId: Bytes, nonce: int, senderPubkey: Bytes, key: Bytes, valueBytes: Bytes, signature: Bytes)

  function UnsignedBytes(tx: Transaction): Option<Bytes> {
    var chainId :- EncodeBytes(tx.chainId);
    var nonce :- EncodeUint64(tx.nonce);
    var sender :- EncodeBytes(tx.senderPubkey);
    var key :- EncodeBytes(tx.key);
    var value :- EncodeBytes(tx.valueBytes);
    Some(chainId + (nonce + (sender + (key + value))))
  }

  function SignedBytes(tx: Transaction): Option<Bytes> {
    var unsigned :- UnsignedBytes(tx);
    var signature :- EncodeBytes(tx.signature);
    Some(unsigned + signature)
  }

  /** The decoder of the unsigned part; the signature of the result is left empty. */
  function DecodeUnsigned(b: Bytes): Option<(Transaction, Bytes)> {
    var (chainId, b1) :- DecodeBytes(b);
    var (nonce, b2) :- DecodeUint64(b1);
    var (sender, b3) :- DecodeBytes(b2);
    var (key, b4) :- DecodeBytes(b3);
    var (value, b5) :- DecodeBytes(b4);
    Some((Transaction(chainId, nonce, sender, key, value, []), b5))
  }

  function DecodeSigned(b: Bytes): Option<(Transaction, Bytes)> {
    var (tx, b1) :- DecodeUnsigned(b);
    var (signature, b2) :- DecodeBytes(b1);
    Some((tx.(signature := signature), b2))
  }

  lemma UnsignedDecodes(tx: Transaction, e: Bytes, rest: Bytes)
    requires UnsignedBytes(tx) == Some(e)
    ensures DecodeUnsigned(e + rest) == Some((tx.(signature := []), rest))
  {
    var c, n := EncodeBytes(tx.chainId).value, EncodeUint64(tx.nonce).value;
    var s, k, v := EncodeBytes(tx.senderPubkey).value, EncodeBytes(tx.key).value, EncodeBytes(tx.valueBytes).value;
    Flatten5(c, n, s, k, v, rest);
    BytesDecodes(tx.chainId, c, n + (s + (k + (v + rest))));
    Uint64Decodes(tx.nonce, n, s + (k + (v + rest)));
    BytesDecodes(tx.senderPubkey, s, k + (v + rest));
    BytesDecodes(tx.key, k, v + rest);
    BytesDecodes(tx.valueBytes, v, rest);
  }

  lemma UnsignedIsCanonical(b: Bytes)
    requires DecodeUnsigned(b).Some?
    ensures var (tx, rest) := DecodeUnsigned(b).value;
            UnsignedBytes(tx).Some? && b == UnsignedBytes(tx).value + rest
  {
    var (chainId, b1) := DecodeBytes(b).value;
    var (nonce, b2) := DecodeUint64(b1).value;
    var (sender, b3) := DecodeBytes(b2).value;
    var (key, b4) := DecodeBytes(b3).value;
    var (value, rest) := DecodeBytes(b4).value;
    BytesIsCanonical(b);
    Uint64IsCanonical(b1);
    BytesIsCanonical(b2);
    BytesIsCanonical(b3);
    BytesIsCanonical(b4);
    var c, n, s := EncodeBytes(chainId).value, EncodeUint64(nonce).value, EncodeBytes(sender).value;
    var k, v := EncodeBytes(key).value, EncodeBytes(value).value;
    Flatten5(c, n, s, k, v, rest);
  }

  lemma UnsignedOmitsSignature(tx: Transaction, signature: Bytes)
    ensures UnsignedBytes(tx.(signature := signature)) == UnsignedBytes(tx)
  {
  }

  lemma SignedDecodes(tx: Transaction, e: Bytes, rest: Bytes)
    requires SignedBytes(tx) == Some(e)
    ensures DecodeSigned(e + rest) == Some((tx, rest))
  {
    var u, g := UnsignedBytes(tx).value, EncodeBytes(tx.signature).value;
    Assoc(u, g, rest);
    UnsignedDecodes(tx, u, g + rest);
    BytesDecodes(tx.signature, g, rest);
  }

  lemma SignedIsCanonical(b: Bytes)
    requires DecodeSigned(b).Some?
    ensures SignedBytes(DecodeSigned(b).value.0).Some?
    ensures b == SignedBytes(DecodeSigned(b).value.0).value + DecodeSigned(b).value.1
  {
    var (tx, b1) := DecodeUnsigned(b).value;
    var (signature, rest) := DecodeBytes(b1).value;
    UnsignedIsCanonical(b);
    BytesIsCanonical(b1);
    UnsignedOmitsSignature(tx, signature);
    Assoc(UnsignedBytes(tx).value, EncodeBytes(signature).value, rest);
  }

  // ---------- identifiers ----------

  /** What `tx_id` hashes: the unsigned bytes followed by the bare signature. */
  function IdPreimage(tx: Transaction): Option<Bytes> {
    var unsigned :- UnsignedBytes(tx);
    Some(unsigned + tx.signature)
  }

  function TxId(c: Primitives, tx: Transaction): (r: Option<Bytes>)
    ensures r.Some? ==> |r.value| == 32
  {
    var preimage :- IdPreimage(tx);
    Some(c.hash(preimage))
  }

  /** The signature carries no length, and still two transactions never share a preimage. */
  lemma IdPreimageIsInjective(a: Transaction, b: Transaction)
    requires IdPreimage(a).Some? && IdPreimage(a) == IdPreimage(b)
    ensures a == b
  {
    UnsignedDecodes(a, UnsignedBytes(a).value, a.signature);
    UnsignedDecodes(b, UnsignedBytes(b).value, b.signature);
  }

  /** Every identifier preimage of the list is among the given hash inputs. */
  ghost predicate IdsCovered(txs: seq<Transaction>, inputs: set<Bytes>) {
    forall tx :: tx in txs && IdPreimage(tx).Some? ==> IdPreimage(tx).value in inputs
  }

  /** An identifier names one transaction, as far as the preimages do not collide. */
  lemma TxIdCommits(c: Primitives, a: Transaction, b: Transaction, inputs: set<Bytes>)
    requires TxId(c, a).Some? && TxId(c, a) == TxId(c, b)
    requires CollisionFree(c, inputs) && IdsCovered([a, b], inputs)
    ensures a == b
  {
    assert a in [a, b] && b in [a, b];
    IdPreimageIsInjective(a, b);
  }

  // ---------- lists ----------

  function ListElement(tx: Transaction): Option<Bytes> {
    var signed :- SignedBytes(tx);
    EncodeBytes(signed)
  }

  function DecodeListElement(b: Bytes): Option<(Transaction, Bytes)> {
    var (signed, rest) :- DecodeBytes(b);
    var (tx, extra) :- DecodeSigned(signed);
    if extra == [] then Some((tx, rest)) else None
  }

  lemma ListElementLaws()
    ensures Decodes(ListElement, DecodeListElement) && Canonical(ListElement, DecodeListElement)
  {
    forall tx: Transaction, rest: Bytes | ListElement(tx).Some?
      ensures DecodeListElement(ListElement(tx).value + rest) == Some((tx, rest))
    {
      var signed := SignedBytes(tx).value;
      BytesDecodes(signed, ListElement(tx).value, rest);
      assert signed + [] == signed;
      SignedDecodes(tx, signed, []);
    }
    forall b: Bytes | DecodeListElement(b).Some?
      ensures ListElement(DecodeListElement(b).value.0).Some?
      ensures b == ListElement(DecodeListElement(b).value.0).value + DecodeListElement(b).value.1
    {
      BytesIsCanonical(b);
      var signed := DecodeBytes(b).value.0;
      SignedIsCanonical(signed);
      assert SignedBytes(DecodeSigned(signed).value.0).value + [] == SignedBytes(DecodeSigned(signed).value.0).value;
    }
  }

  function ListBytes(txs: seq<Transaction>): Option<Bytes> {
    var count :- EncodeUint64(|txs|);
    var body :- EncodeAll(ListElement, txs);
    Some(count + body)
  }

  /** The decoder that src/transaction.py asks for. */
  function DecodeList(b: Bytes): Option<seq<Transaction>> {
    var (count, b1) :- DecodeUint64(b);
    var (txs, extra) :- DecodeAll(DecodeListElement, b1, count);
    if extra == [] then Some(txs) else None
  }

  /** The body payload round trip, in both directions: b is the encoding of txs exactly when the
      decoder reads txs from b. */
  lemma ListRoundTrip(txs: seq<Transaction>, b: Bytes)
    ensures ListBytes(txs) == Some(b) <==> DecodeList(b) == Some(txs)
  {
    ListElementLaws();
    if ListBytes(txs) == Some(b) {
      var count, body := EncodeUint64(|txs|).value, EncodeAll(ListElement, txs).value;
      Uint64Decodes(|txs|, count, body);
      assert body + [] == body;
      ListDecodes(ListElement, DecodeListElement, txs, body, []);
    }
    if DecodeList(b) == Some(txs) {
      var (count, b1) := DecodeUint64(b).value;
      Uint64IsCanonical(b);
      ListIsCanonical(ListElement, DecodeListElement, b1, count);
      assert EncodeAll(ListElement, txs).value + [] == EncodeAll(ListElement, txs).value;
    }
  }

  /** `encode_transaction_list`. */
  method EncodeTransactionList(txs: seq<Transaction>) returns (r: Option<Bytes>)
    ensures r == ListBytes(txs)
  {
    var count := EncodeUint64(|txs|);
    if count == None {
      return None;
    }
    var body := AppendAll(ListElement, txs);
    if body == None {
      return None;
    }
    r := Some(count.value + body.value);
  }

  // ---------- validation ----------

  /** `hex(SHA256(sender_pubkey)) + "/"`. */
  function Namespace(c: Primitives, pubkey: Bytes): (ns: Bytes)
    ensures |ns| == 65
  {
    Hex(c.hash(pubkey)) + [47]
  }

  /** No key lies in the namespaces of two senders whose public keys do not collide. */
  lemma NamespacesAreDisjoint(c: Primitives, p: Bytes, q: Bytes, key: Bytes)
    requires CollisionFree(c, {p, q})
    requires Namespace(c, p) <= key && Namespace(c, q) <= key
    ensures p == q
  {
    assert Hex(c.hash(p)) == key[..64] == Hex(c.hash(q));
    HexIsInjective(c.hash(p), c.hash(q));
  }

  datatype TxError =
    | InvalidChainId | InvalidNonce | InvalidNonceRange | InvalidSenderPubkey | InvalidSignatureLength
    | KeyTooLarge | ValueTooLarge | InvalidNamespace | InvalidSignature | NotEncodable

  datatype ExecutionConfig = ExecutionConfig(chainId: Bytes, maxKeySize: int, maxValueSize: int)

  /** "TX:" */
  const TX_DOMAIN: Bytes := [84, 88, 58]

  /** The guard chain of `Transaction.validate`; None when every guard passes. */
  function Validate(c: Primitives, tx: Transaction, cfg: ExecutionConfig, expectedNonce: int): Option<TxError> {
    if tx.chainId != cfg.chainId then Some(InvalidChainId)
    else if tx.nonce != expectedNonce then Some(InvalidNonce)
    else if !(0 <= tx.nonce < UINT64_LIMIT) then Some(InvalidNonceRange)
    else if |tx.senderPubkey| != PUBLIC_KEY_LEN then Some(InvalidSenderPubkey)
    else if |tx.signature| != SIGNATURE_LEN then Some(InvalidSignatureLength)
    else if |tx.key| > cfg.maxKeySize then Some(KeyTooLarge)
    else if |tx.valueBytes| > cfg.maxValueSize then Some(ValueTooLarge)
    else if !(Namespace(c, tx.senderPubkey) <= tx.key) then Some(InvalidNamespace)
    else match UnsignedBytes(tx)
         case None => Some(NotEncodable)
         case Some(unsigned) =>
           if c.verify(tx.senderPubkey, TX_DOMAIN + cfg.chainId, unsigned, tx.signature) then None
           else Some(InvalidSignature)
  }
}
