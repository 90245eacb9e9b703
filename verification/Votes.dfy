/** The vote record and its canonical bytes (src/vote.py). */
module Votes {
  import opened Wrappers
  import opened Ordering
  import opened Encoding

  datatype Vote = Vote(
    chainId: Bytes, height: int, round: int, phase: Bytes, block: Option<Bytes>,
    validatorPubkey: Bytes, signature: Bytes)

  /** "PREVOTE" and "PRECOMMIT" */
  const PREVOTE: Bytes := [80, 82, 69, 86, 79, 84, 69]
  const PRECOMMIT: Bytes := [80, 82, 69, 67, 79, 77, 77, 73, 84]

  function UnsignedBytes(v: Vote): Option<Bytes> {
    var chainId :- EncodeBytes(v.chainId);
    var height :- EncodeUint64(v.height);
    var round :- EncodeUint64(v.round);
    var phase :- EncodeBytes(v.phase);
    var block :- EncodeOptionalHash(v.block);
    var validator :- EncodeBytes(v.validatorPubkey);
    Some(chainId + (height + (round + (phase + (block + validator)))))
  }

  function SignedBytes(v: Vote): Option<Bytes> {
    var unsigned :- UnsignedBytes(v);
    var signature :- EncodeBytes(v.signature);
    Some(unsigned + signature)
  }

  /** The decoder of the unsigned part; the signature of the result is left empty. */
  function DecodeUnsigned(b: Bytes): Option<(Vote, Bytes)> {
    var (chainId, b1) :- DecodeBytes(b);
    var (height, b2) :- DecodeUint64(b1);
    var (round, b3) :- DecodeUint64(b2);
    var (phase, b4) :- DecodeBytes(b3);
    var (block, b5) :- DecodeOptionalHash(b4);
    var (validator, b6) :- DecodeBytes(b5);
    Some((Vote(chainId, height, round, phase, block, validator, []), b6))
  }

  function DecodeSigned(b: Bytes): Option<(Vote, Bytes)> {
    var (v, b1) :- DecodeUnsigned(b);
    var (signature, b2) :- DecodeBytes(b1);
    Some((v.(signature := signature), b2))
  }

  lemma UnsignedDecodes(v: Vote, e: Bytes, rest: Bytes)
    requires UnsignedBytes(v) == Some(e)
    ensures DecodeUnsigned(e + rest) == Some((v.(signature := []), rest))
  {
    var c, h, r := EncodeBytes(v.chainId).value, EncodeUint64(v.height).value, EncodeUint64(v.round).value;
    var p, o := EncodeBytes(v.phase).value, EncodeOptionalHash(v.block).value;
    var k := EncodeBytes(v.validatorPubkey).value;
    Flatten6(c, h, r, p, o, k, rest);
    BytesDecodes(v.chainId, c, h + (r + (p + (o + (k + rest)))));
    Uint64Decodes(v.height, h, r + (p + (o + (k + rest))));
    Uint64Decodes(v.round, r, p + (o + (k + rest)));
    BytesDecodes(v.phase, p, o + (k + rest));
    OptionalHashDecodes(v.block, o, k + rest);
    BytesDecodes(v.validatorPubkey, k, rest);
  }

  lemma UnsignedIsCanonical(b: Bytes)
    requires DecodeUnsigned(b).Some?
    ensures var (v, rest) := DecodeUnsigned(b).value;
            UnsignedBytes(v).Some? && b == UnsignedBytes(v).value + rest
  {
    var (chainId, b1) := DecodeBytes(b).value;
    var (height, b2) := DecodeUint64(b1).value;
    var (round, b3) := DecodeUint64(b2).value;
    var (phase, b4) := DecodeBytes(b3).value;
    var (block, b5) := DecodeOptionalHash(b4).value;
    var (validator, rest) := DecodeBytes(b5).value;
    BytesIsCanonical(b);
    Uint64IsCanonical(b1);
    Uint64IsCanonical(b2);
    BytesIsCanonical(b3);
    OptionalHashIsCanonical(b4);
    BytesIsCanonical(b5);
    Flatten6(EncodeBytes(chainId).value, EncodeUint64(height).value, EncodeUint64(round).value,
             EncodeBytes(phase).value, EncodeOptionalHash(block).value, EncodeBytes(validator).value, rest);
  }

  lemma UnsignedOmitsSignature(v: Vote, signature: Bytes)
    ensures UnsignedBytes(v.(signature := signature)) == UnsignedBytes(v)
  {
  }

  lemma SignedDecodes(v: Vote, e: Bytes, rest: Bytes)
    requires SignedBytes(v) == Some(e)
    ensures DecodeSigned(e + rest) == Some((v, rest))
  {
    var u, g := UnsignedBytes(v).value, EncodeBytes(v.signature).value;
    Assoc(u, g, rest);
    UnsignedDecodes(v, u, g + rest);
    BytesDecodes(v.signature, g, rest);
  }

  lemma SignedIsCanonical(b: Bytes)
    requires DecodeSigned(b).Some?
    ensures SignedBytes(DecodeSigned(b).value.0).Some?
    ensures b == SignedBytes(DecodeSigned(b).value.0).value + DecodeSigned(b).value.1
  {
    var (v, b1) := DecodeUnsigned(b).value;
    var (signature, rest) := DecodeBytes(b1).value;
    UnsignedIsCanonical(b);
    BytesIsCanonical(b1);
    UnsignedOmitsSignature(v, signature);
    Assoc(UnsignedBytes(v).value, EncodeBytes(signature).value, rest);
  }

  /** b is the wire form of v exactly when the decoder reads v from b and nothing is left over. */
  lemma VoteRoundTrip(v: Vote, b: Bytes)
    ensures SignedBytes(v) == Some(b) <==> DecodeSigned(b) == Some((v, []))
  {
    if SignedBytes(v) == Some(b) {
      assert b + [] == b;
      SignedDecodes(v, b, []);
    }
    if DecodeSigned(b) == Some((v, [])) {
      SignedIsCanonical(b);
      assert SignedBytes(v).value + [] == SignedBytes(v).value;
    }
  }
}
