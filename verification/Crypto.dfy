/** The foreign primitives. SHA-256 and Ed25519 verification are parameters: every function that needs
    them takes a Primitives value, and a theorem that needs collision resistance says for which inputs. */
module Crypto {
  import opened Ordering

  type Digest = d: Bytes | |d| == 32 witness seq(32, _ => 0)

  /** `verify` takes the public key, the domain, the payload and the signature. */
  datatype Primitives = Primitives(hash: Bytes -> Digest, verify: (Bytes, Bytes, Bytes, Bytes) -> bool)

  /** No two of the given inputs share a digest. */
  ghost predicate CollisionFree(c: Primitives, inputs: set<Bytes>) {
    forall x, y :: x in inputs && y in inputs && c.hash(x) == c.hash(y) ==> x == y
  }

  function HexDigit(n: int): byte
    requires 0 <= n < 16
  {
    if n < 10 then 48 + n else 87 + n
  }

  /** Lowercase hexadecimal text. */
  function Hex(b: Bytes): (h: Bytes)
    ensures |h| == 2 * |b|
  {
    if b == [] then [] else [HexDigit(b[0] / 16), HexDigit(b[0] % 16)] + Hex(b[1..])
  }

  lemma {:induction false} HexIsInjective(a: Bytes, b: Bytes)
    requires Hex(a) == Hex(b)
    ensures a == b
  {
    assert |a| == |b|;
    if a != [] {
      assert Hex(a)[0] == Hex(b)[0] && Hex(a)[1] == Hex(b)[1];
      assert Hex(a)[2..] == Hex(a[1..]) && Hex(b)[2..] == Hex(b[1..]);
      HexIsInjective(a[1..], b[1..]);
      assert a[0] == 16 * (a[0] / 16) + a[0] % 16;
      assert b[0] == 16 * (b[0] / 16) + b[0] % 16;
      assert a == [a[0]] + a[1..] && b == [b[0]] + b[1..];
    }
  }

  /** The ASCII codes of 0 to 9 and a to f. */
  const HEX_DIGITS: Bytes := [48, 49, 50, 51, 52, 53, 54, 55, 56, 57, 97, 98, 99, 100, 101, 102]

  /** Each byte is written as its two digits, high one first, in lower case. */
  lemma {:induction false} HexIsLowercase(b: Bytes, i: nat)
    requires i < |b|
    ensures Hex(b)[2 * i] == HEX_DIGITS[b[i] / 16] && Hex(b)[2 * i + 1] == HEX_DIGITS[b[i] % 16]
  {
    if i > 0 {
      HexIsLowercase(b[1..], i - 1);
      assert Hex(b)[2..] == Hex(b[1..]);
    }
  }
}
