/** Block headers, the transaction root and the two hashes built from them (src/block.py). */
module Blocks {
  import opened Wrappers
  import opened Ordering
  import opened Encoding
  import opened Crypto
  import Votes

  // ---------- transaction root ----------

  function IdChunk(id: Bytes): Option<Bytes> {
    if |id| == 32 then Some(id) else None
  }

  function DecodeIdChunk(b: Bytes): Option<(Bytes, Bytes)> {
    if |b| < 32 then None else Some((b[..32], b[32..]))
  }

  /** What `compute_tx_root` hashes: the count, then the identifiers in body order. */
  function TxRootPayload(ids: seq<Bytes>): Option<Bytes> {
    var count :- EncodeUint64(|ids|);
    var body :- EncodeAll(IdChunk, ids);
    Some(count + body)
  }

  function TxRoot(c: Primitives, ids: seq<Bytes>): Option<Digest> {
    var payload :- TxRootPayload(ids);
    Some(c.hash(payload))
  }

  /** The payload commits to the identifiers and to their order. */
  lemma TxRootPayloadIsInjective(a: seq<Bytes>, b: seq<Bytes>)
    requires TxRootPayload(a).Some? && TxRootPayload(a) == TxRootPayload(b)
    ensures a == b
  {
    var payload := TxRootPayload(a).value;
    forall ids | TxRootPayload(ids) == Some(payload)
      ensures DecodeUint64(payload).Some?
      ensures var (n, body) := DecodeUint64(payload).value;
              n == |ids| && EncodeAll(IdChunk, ids) == Some(body)
    {
      Uint64Decodes(|ids|, EncodeUint64(|ids|).value, EncodeAll(IdChunk, ids).value);
    }
    var body := EncodeAll(IdChunk, a).value;
    assert Decodes(IdChunk, DecodeIdChunk) by {
      forall x: Bytes, rest: Bytes | IdChunk(x).Some?
        ensures DecodeIdChunk(IdChunk(x).value + rest) == Some((x, rest))
      {
        assert (x + rest)[..32] == x && (x + rest)[32..] == rest;
      }
    }
    ListDecodes(IdChunk, DecodeIdChunk, a, body, []);
    ListDecodes(IdChunk, DecodeIdChunk, b, body, []);
  }

  /** `compute_tx_root`: the loop that grows the payload. */
  method ComputeTxRoot(c: Primitives, ids: seq<Bytes>) returns (r: Option<Digest>)
    ensures r == TxRoot(c, ids)
  {
    var count := EncodeUint64(|ids|);
    if count == None {
      return None;
    }
    var body := AppendAll(IdChunk, ids);
    if body == None {
      return None;
    }
    r := Some(c.hash(count.value + body.value));
  }

  // ---------- headers ----------

  datatype BlockHeader = BlockHeader(
    chainId: Bytes, height: int, round: int, parentHash: Bytes, txRoot: Bytes, stateHash: Bytes,
    proposerPubkey: Bytes, signature: Bytes)

  function UnsignedBytes(h: BlockHeader): Option<Bytes> {
    var chainId :- EncodeBytes(h.chainId);
    var height :- EncodeUint64(h.height);
    var round :- EncodeUint64(h.round);
    var parentHash :- EncodeBytes(h.parentHash);
    var txRoot :- EncodeBytes(h.txRoot);
    var stateHash :- EncodeBytes(h.stateHash);
    var proposer :- EncodeBytes(h.proposerPubkey);
    Some(chainId + (height + (round + (parentHash + (txRoot + (stateHash + proposer))))))
  }

  function SignedBytes(h: BlockHeader): Option<Bytes> {
    var unsigned :- UnsignedBytes(h);
    var signature :- EncodeBytes(h.signature);
    Some(unsigned + signature)
  }

  /** The decoder of the unsigned part; the signature of the result is left empty. */
  function DecodeUnsigned(b: Bytes): Option<(BlockHeader, Bytes)> {
    var (chainId, b1) :- DecodeBytes(b);
    var (height, b2) :- DecodeUint64(b1);
    var (round, b3) :- DecodeUint64(b2);
    var (parentHash, b4) :- DecodeBytes(b3);
    var (txRoot, b5) :- DecodeBytes(b4);
    var (stateHash, b6) :- DecodeBytes(b5);
    var (proposer, b7) :- DecodeBytes(b6);
    Some((BlockHeader(chainId, height, round, parentHash, txRoot, stateHash, proposer, []), b7))
  }

  function DecodeSigned(b: Bytes): Option<(BlockHeader, Bytes)> {
    var (h, b1) :- DecodeUnsigned(b);
    var (signature, b2) :- DecodeBytes(b1);
    Some((h.(signature := signature), b2))
  }

  lemma UnsignedDecodes(h: BlockHeader, e: Bytes, rest: Bytes)
    requires UnsignedBytes(h) == Some(e)
    ensures DecodeUnsigned(e + rest) == Some((h.(signature := []), rest))
  {
    var c, n, r := EncodeBytes(h.chainId).value, EncodeUint64(h.height).value, EncodeUint64(h.round).value;
    var p, t := EncodeBytes(h.parentHash).value, EncodeBytes(h.txRoot).value;
    var s, k := EncodeBytes(h.stateHash).value, EncodeBytes(h.proposerPubkey).value;
    Flatten7(c, n, r, p, t, s, k, rest);
    BytesDecodes(h.chainId, c, n + (r + (p + (t + (s + (k + rest))))));
    Uint64Decodes(h.height, n, r + (p + (t + (s + (k + rest)))));
    Uint64Decodes(h.round, r, p + (t + (s + (k + rest))));
    BytesDecodes(h.parentHash, p, t + (s + (k + rest)));
    BytesDecodes(h.txRoot, t, s + (k + rest));
    BytesDecodes(h.stateHash, s, k + rest);
    BytesDecodes(h.proposerPubkey, k, rest);
  }

  lemma UnsignedIsCanonical(b: Bytes)
    requires DecodeUnsigned(b).Some?
    ensures var (h, rest) := DecodeUnsigned(b).value;
            UnsignedBytes(h).Some? && b == UnsignedBytes(h).value + rest
  {
    var (chainId, b1) := DecodeBytes(b).value;
    var (height, b2) := DecodeUint64(b1).value;
    var (round, b3) := DecodeUint64(b2).value;
    var (parentHash, b4) := DecodeBytes(b3).value;
    var (txRoot, b5) := DecodeBytes(b4).value;
    var (stateHash, b6) := DecodeBytes(b5).value;
    var (proposer, rest) := DecodeBytes(b6).value;
    BytesIsCanonical(b);
    Uint64IsCanonical(b1);
    Uint64IsCanonical(b2);
    BytesIsCanonical(b3);
    BytesIsCanonical(b4);
    BytesIsCanonical(b5);
    BytesIsCanonical(b6);
    Flatten7(EncodeBytes(chainId).value, EncodeUint64(height).value, EncodeUint64(round).value,
             EncodeBytes(parentHash).value, EncodeBytes(txRoot).value, EncodeBytes(stateHash).value,
             EncodeBytes(proposer).value, rest);
  }

  lemma UnsignedOmitsSignature(h: BlockHeader, signature: Bytes)
    ensures UnsignedBytes(h.(signature := signature)) == UnsignedBytes(h)
  {
  }

  lemma SignedDecodes(h: BlockHeader, e: Bytes, rest: Bytes)
    requires SignedBytes(h) == Some(e)
    ensures DecodeSigned(e + rest) == Some((h, rest))
  {
    var u, g := UnsignedBytes(h).value, EncodeBytes(h.signature).value;
    Assoc(u, g, rest);
    UnsignedDecodes(h, u, g + rest);
    BytesDecodes(h.signature, g, rest);
  }

  lemma SignedIsCanonical(b: Bytes)
    requires DecodeSigned(b).Some?
    ensures SignedBytes(DecodeSigned(b).value.0).Some?
    ensures b == SignedBytes(DecodeSigned(b).value.0).value + DecodeSigned(b).value.1
  {
    var (h, b1) := DecodeUnsigned(b).value;
    var (signature, rest) := DecodeBytes(b1).value;
    UnsignedIsCanonical(b);
    BytesIsCanonical(b1);
    UnsignedOmitsSignature(h, signature);
    Assoc(UnsignedBytes(h).value, EncodeBytes(signature).value, rest);
  }

  /** b is the wire form of h exactly when the decoder reads h from b and nothing is left over. */
  lemma HeaderRoundTrip(h: BlockHeader, b: Bytes)
    ensures SignedBytes(h) == Some(b) <==> DecodeSigned(b) == Some((h, []))
  {
    if SignedBytes(h) == Some(b) {
      assert b + [] == b;
      SignedDecodes(h, b, []);
    }
    if DecodeSigned(b) == Some((h, [])) {
      SignedIsCanonical(b);
      assert SignedBytes(h).value + [] == SignedBytes(h).value;
    }
  }

  /** `block_hash`: the digest of the signed header. */
  function BlockHash(c: Primitives, h: BlockHeader): Option<Digest> {
    var signed :- SignedBytes(h);
    Some(c.hash(signed))
  }

  /** A header is determined by its block hash, as far as the two header encodings do not collide. */
  lemma BlockHashCommits(c: Primitives, a: BlockHeader, b: BlockHeader, inputs: set<Bytes>)
    requires BlockHash(c, a).Some? && BlockHash(c, a) == BlockHash(c, b)
    requires CollisionFree(c, inputs) && SignedBytes(a).value in inputs && SignedBytes(b).value in inputs
    ensures a == b
  {
    HeaderRoundTrip(a, SignedBytes(a).value);
    HeaderRoundTrip(b, SignedBytes(b).value);
  }

  /** The byte string that follows the chain identifier, the height and the round. */
  function FourthField(b: Bytes): Option<Bytes> {
    var (_, b1) :- DecodeBytes(b);
    var (_, b2) :- DecodeUint64(b1);
    var (_, b3) :- DecodeUint64(b2);
    var (field, _) :- DecodeBytes(b3);
    Some(field)
  }

  lemma FourthFieldDecodes(chainId: Bytes, height: int, round: int, field: Bytes,
                           c: Bytes, h: Bytes, r: Bytes, f: Bytes, rest: Bytes)
    requires EncodeBytes(chainId) == Some(c) && EncodeUint64(height) == Some(h)
    requires EncodeUint64(round) == Some(r) && EncodeBytes(field) == Some(f)
    ensures FourthField(c + (h + (r + (f + rest)))) == Some(field)
  {
    BytesDecodes(chainId, c, h + (r + (f + rest)));
    Uint64Decodes(height, h, r + (f + rest));
    Uint64Decodes(round, r, f + rest);
    BytesDecodes(field, f, rest);
  }

  lemma FourthFieldOfVote(v: Votes.Vote, b: Bytes)
    requires Votes.SignedBytes(v) == Some(b)
    ensures FourthField(b) == Some(v.phase)
  {
    var c, h, r := EncodeBytes(v.chainId).value, EncodeUint64(v.height).value, EncodeUint64(v.round).value;
    var f, o := EncodeBytes(v.phase).value, EncodeOptionalHash(v.block).value;
    var k, g := EncodeBytes(v.validatorPubkey).value, EncodeBytes(v.signature).value;
    Flatten6(c, h, r, f, o, k, g);
    FourthFieldDecodes(v.chainId, v.height, v.round, v.phase, c, h, r, f, o + (k + g));
  }

  lemma FourthFieldOfHeader(b: BlockHeader, e: Bytes)
    requires SignedBytes(b) == Some(e)
    ensures FourthField(e) == Some(b.parentHash)
  {
    var c, h, r := EncodeBytes(b.chainId).value, EncodeUint64(b.height).value, EncodeUint64(b.round).value;
    var f, t := EncodeBytes(b.parentHash).value, EncodeBytes(b.txRoot).value;
    var s, k, g := EncodeBytes(b.stateHash).value, EncodeBytes(b.proposerPubkey).value, EncodeBytes(b.signature).value;
    Flatten7(c, h, r, f, t, s, k, g);
    FourthFieldDecodes(b.chainId, b.height, b.round, b.parentHash, c, h, r, f, t + (s + (k + g)));
  }

  /** A prevote or precommit is never read as a header with a 32-byte parent, and the other way round:
      the two differ in the length written after the round. */
  lemma VotesAreNotHeaders(v: Votes.Vote, h: BlockHeader, b: Bytes)
    requires v.phase == Votes.PREVOTE || v.phase == Votes.PRECOMMIT
    requires |h.parentHash| == 32
    requires Votes.SignedBytes(v) == Some(b)
    ensures SignedBytes(h) != Some(b)
  {
    FourthFieldOfVote(v, b);
    if SignedBytes(h) == Some(b) {
      FourthFieldOfHeader(h, b);
    }
  }
}
