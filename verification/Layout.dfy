/** What a reader finds at each offset of the wire forms (src/encoding.py, src/vote.py, src/block.py,
    src/transaction.py). */
module Layout {
  import opened Wrappers
  import opened Ordering
  import opened Encoding
  import opened Transactions
  import opened Votes
  import opened Blocks

  // ---------- byte order ----------

  /** A common prefix, then a smaller byte or the end of the first string. */
  ghost predicate DiffersAt(a: Bytes, b: Bytes, i: nat) {
    i <= |a| && i < |b| && a[..i] == b[..i] && (i < |a| ==> a[i] < b[i])
  }

  lemma SameBefore(a: Bytes, b: Bytes, i: nat)
    requires a != [] && DiffersAt(a, b, i)
    ensures i > 0 ==> a[0] == b[0]
  {
    if i > 0 {
      assert a[..i][0] == a[0] && b[..i][0] == b[0];
    }
  }

  /** One byte string is less than another exactly when it is smaller at the first difference, or is a proper
      prefix. */
  lemma {:induction false} LessExactlyWhen(a: Bytes, b: Bytes)
    ensures Less(a, b) <==> exists i: nat :: DiffersAt(a, b, i)
  {
    if a == [] {
      assert b != [] ==> DiffersAt(a, b, 0);
    } else if b != [] && a[0] == b[0] {
      var s, t := a[1..], b[1..];
      LessExactlyWhen(s, t);
      if i: nat :| DiffersAt(s, t, i) {
        assert a[..i + 1] == [a[0]] + s[..i] && b[..i + 1] == [b[0]] + t[..i];
        assert DiffersAt(a, b, i + 1);
      }
      if i: nat :| DiffersAt(a, b, i) {
        assert i > 0;
        assert a[..i][1..] == s[..i - 1] && b[..i][1..] == t[..i - 1];
        assert DiffersAt(s, t, i - 1);
      }
    } else if b != [] {
      assert a[0] < b[0] ==> DiffersAt(a, b, 0);
      if i: nat :| DiffersAt(a, b, i) {
        SameBefore(a, b, i);
      }
    }
  }

  /** Between strings of one length, what follows does not matter once they differ. */
  lemma {:induction false} LessThenAppend(a: Bytes, b: Bytes, x: byte, y: byte)
    requires |a| == |b|
    ensures Less(a + [x], b + [y]) <==> Less(a, b) || (a == b && x < y)
  {
    if a != [] {
      assert (a + [x])[1..] == a[1..] + [x] && (b + [y])[1..] == b[1..] + [y];
      LessThenAppend(a[1..], b[1..], x, y);
      assert a == [a[0]] + a[1..] && b == [b[0]] + b[1..];
    }
  }

  lemma Halves(m: nat, n: nat)
    ensures m < n <==> m / 256 < n / 256 || (m / 256 == n / 256 && m % 256 < n % 256)
  {
  }

  lemma HighPart(m: nat, width: nat)
    requires width > 0 && m < Pow256(width)
    ensures m / 256 < Pow256(width - 1)
  {
  }

  /** Fixed-width integers are ordered as their encodings are, so the most significant byte comes first. */
  lemma {:induction false} BigEndianKeepsOrder(m: nat, n: nat, width: nat)
    requires m < Pow256(width) && n < Pow256(width)
    ensures m < n <==> Less(BigEndian(m, width), BigEndian(n, width))
    decreases width
  {
    if width > 0 {
      HighPart(m, width);
      HighPart(n, width);
      hide Less, Pow256;
      var p, q := m / 256, n / 256;
      BigEndianKeepsOrder(p, q, width - 1);
      LessThenAppend(BigEndian(p, width - 1), BigEndian(q, width - 1), m % 256, n % 256);
      BigEndianDecodes(p, width - 1);
      BigEndianDecodes(q, width - 1);
      Halves(m, n);
    }
  }

  // ---------- fields ----------

  ghost predicate IntAt(b: Bytes, at: nat, value: int) {
    at + 8 <= |b| && FromBigEndian(b[at..at + 8]) == value
  }

  /** Four bytes of length, then the bytes. */
  ghost predicate BytesAt(b: Bytes, at: nat, data: Bytes) {
    at + 4 + |data| <= |b| && FromBigEndian(b[at..at + 4]) == |data| && b[at + 4..at + 4 + |data|] == data
  }

  /** A zero byte, or a one and the 32 bytes of the hash. */
  ghost predicate HashAt(b: Bytes, at: nat, hash: Option<Bytes>) {
    at < |b|
    && match hash
       case None => b[at] == 0
       case Some(h) => b[at] == 1 && |h| == 32 && at + 33 <= |b| && b[at + 1..at + 33] == h
  }

  lemma Inside(before: Bytes, e: Bytes, rest: Bytes, i: nat, j: nat)
    requires i <= j <= |e|
    ensures (before + (e + rest))[|before| + i..|before| + j] == e[i..j]
    ensures before + (e + rest) == (before + e) + rest
  {
  }

  /** One field on: what was read, then the rest. */
  lemma IntNext(b: Bytes, before: Bytes, value: int, rest: Bytes) returns (next: Bytes)
    requires EncodeUint64(value).Some? && b == before + (EncodeUint64(value).value + rest)
    ensures IntAt(b, |before|, value)
    ensures |next| == |before| + 8 && b == next + rest
  {
    var e := EncodeUint64(value).value;
    Limits();
    BigEndianDecodes(value, 8);
    Inside(before, e, rest, 0, 8);
    next := before + e;
    hide BigEndian, FromBigEndian, Pow256;
  }

  lemma BytesNext(b: Bytes, before: Bytes, data: Bytes, rest: Bytes) returns (next: Bytes)
    requires EncodeBytes(data).Some? && b == before + (EncodeBytes(data).value + rest)
    ensures BytesAt(b, |before|, data)
    ensures |next| == |before| + 4 + |data| && b == next + rest
  {
    var e := EncodeBytes(data).value;
    Limits();
    BigEndianDecodes(|data|, 4);
    Inside(before, e, rest, 0, 4);
    Inside(before, e, rest, 4, 4 + |data|);
    hide BigEndian, FromBigEndian, Pow256;
    assert e[0..4] == BigEndian(|data|, 4) && e[4..4 + |data|] == data;
    next := before + e;
  }

  function HashLength(hash: Option<Bytes>): nat {
    if hash == None then 1 else 33
  }

  lemma HashNext(b: Bytes, before: Bytes, hash: Option<Bytes>, rest: Bytes) returns (next: Bytes)
    requires EncodeOptionalHash(hash).Some? && b == before + (EncodeOptionalHash(hash).value + rest)
    ensures HashAt(b, |before|, hash)
    ensures |next| == |before| + HashLength(hash) && b == next + rest
  {
    var e := EncodeOptionalHash(hash).value;
    Inside(before, e, rest, 0, 1);
    if hash.Some? {
      Inside(before, e, rest, 1, 33);
    }
    next := before + e;
  }

  lemma LastBytes(b: Bytes, before: Bytes, data: Bytes)
    requires EncodeBytes(data).Some? && b == before + EncodeBytes(data).value
    ensures BytesAt(b, |before|, data) && |b| == |before| + 4 + |data|
  {
    assert b == before + (EncodeBytes(data).value + []);
    var all := BytesNext(b, before, data, []);
  }

  /** The first four fields of a vote, and what follows them. */
  lemma VoteHead(v: Vote) returns (at: Bytes)
    requires Votes.UnsignedBytes(v).Some?
    ensures EncodeOptionalHash(v.block).Some? && EncodeBytes(v.validatorPubkey).Some?
    ensures var b, n := Votes.UnsignedBytes(v).value, |v.chainId|;
            b == at + (EncodeOptionalHash(v.block).value + EncodeBytes(v.validatorPubkey).value)
            && |at| == 24 + n + |v.phase|
            && BytesAt(b, 0, v.chainId) && IntAt(b, 4 + n, v.height) && IntAt(b, 12 + n, v.round)
            && BytesAt(b, 20 + n, v.phase)
  {
    hide EncodeBytes, EncodeUint64, EncodeOptionalHash, BytesAt, IntAt;
    var h, r, p := EncodeUint64(v.height).value, EncodeUint64(v.round).value, EncodeBytes(v.phase).value;
    var tail := EncodeOptionalHash(v.block).value + EncodeBytes(v.validatorPubkey).value;
    var b := Votes.UnsignedBytes(v).value;
    at := BytesNext(b, [], v.chainId, h + (r + (p + tail)));
    at := IntNext(b, at, v.height, r + (p + tail));
    at := IntNext(b, at, v.round, p + tail);
    at := BytesNext(b, at, v.phase, tail);
  }

  /** A vote: chain, height, round, phase, block and validator, in this order and with nothing after them. */
  lemma VoteLayout(v: Vote)
    requires Votes.UnsignedBytes(v).Some?
    ensures var b, n, m := Votes.UnsignedBytes(v).value, |v.chainId|, |v.phase|;
            var end := 24 + n + m + HashLength(v.block);
            BytesAt(b, 0, v.chainId) && IntAt(b, 4 + n, v.height) && IntAt(b, 12 + n, v.round)
            && BytesAt(b, 20 + n, v.phase) && HashAt(b, 24 + n + m, v.block) && BytesAt(b, end, v.validatorPubkey)
            && |b| == end + 4 + |v.validatorPubkey|
  {
    hide *;
    var b := Votes.UnsignedBytes(v).value;
    var at := VoteHead(v);
    at := HashNext(b, at, v.block, EncodeBytes(v.validatorPubkey).value);
    LastBytes(b, at, v.validatorPubkey);
  }

  /** A transaction: chain, nonce, sender, key and value. */
  lemma TransactionLayout(tx: Transaction)
    requires Transactions.UnsignedBytes(tx).Some?
    ensures var b, n, m, k := Transactions.UnsignedBytes(tx).value, |tx.chainId|, |tx.senderPubkey|, |tx.key|;
            BytesAt(b, 0, tx.chainId) && IntAt(b, 4 + n, tx.nonce) && BytesAt(b, 12 + n, tx.senderPubkey)
            && BytesAt(b, 16 + n + m, tx.key) && BytesAt(b, 20 + n + m + k, tx.valueBytes)
            && |b| == 24 + n + m + k + |tx.valueBytes|
  {
    hide EncodeBytes, EncodeUint64, BytesAt, IntAt;
    var o, s := EncodeUint64(tx.nonce).value, EncodeBytes(tx.senderPubkey).value;
    var k, v := EncodeBytes(tx.key).value, EncodeBytes(tx.valueBytes).value;
    var b := Transactions.UnsignedBytes(tx).value;
    var at := BytesNext(b, [], tx.chainId, o + (s + (k + v)));
    at := IntNext(b, at, tx.nonce, s + (k + v));
    at := BytesNext(b, at, tx.senderPubkey, k + v);
    at := BytesNext(b, at, tx.key, v);
    LastBytes(b, at, tx.valueBytes);
  }

  /** A header: chain, height, round, parent, root, state and proposer. */
  lemma HeaderLayout(x: BlockHeader)
    requires Blocks.UnsignedBytes(x).Some?
    ensures var b, n, p := Blocks.UnsignedBytes(x).value, |x.chainId|, |x.parentHash|;
            var q, r := p + |x.txRoot|, p + |x.txRoot| + |x.stateHash|;
            BytesAt(b, 0, x.chainId) && IntAt(b, 4 + n, x.height) && IntAt(b, 12 + n, x.round)
            && BytesAt(b, 20 + n, x.parentHash) && BytesAt(b, 24 + n + p, x.txRoot)
            && BytesAt(b, 28 + n + q, x.stateHash) && BytesAt(b, 32 + n + r, x.proposerPubkey)
            && |b| == 36 + n + r + |x.proposerPubkey|
  {
    hide EncodeBytes, EncodeUint64, BytesAt, IntAt;
    var h, r := EncodeUint64(x.height).value, EncodeUint64(x.round).value;
    var p, t := EncodeBytes(x.parentHash).value, EncodeBytes(x.txRoot).value;
    var s, w := EncodeBytes(x.stateHash).value, EncodeBytes(x.proposerPubkey).value;
    var b := Blocks.UnsignedBytes(x).value;
    var at := BytesNext(b, [], x.chainId, h + (r + (p + (t + (s + w)))));
    at := IntNext(b, at, x.height, r + (p + (t + (s + w))));
    at := IntNext(b, at, x.round, p + (t + (s + w)));
    at := BytesNext(b, at, x.parentHash, t + (s + w));
    at := BytesNext(b, at, x.txRoot, s + w);
    at := BytesNext(b, at, x.stateHash, w);
    LastBytes(b, at, x.proposerPubkey);
  }

  /** The signature follows the unsigned bytes with its length, and nothing follows it. */
  ghost predicate EndsSigned(unsigned: Bytes, signed: Bytes, signature: Bytes) {
    unsigned <= signed && BytesAt(signed, |unsigned|, signature) && |signed| == |unsigned| + 4 + |signature|
  }

  lemma SignedLayout(v: Vote, tx: Transaction, x: BlockHeader)
    ensures Votes.SignedBytes(v).Some? ==>
              EndsSigned(Votes.UnsignedBytes(v).value, Votes.SignedBytes(v).value, v.signature)
    ensures Transactions.SignedBytes(tx).Some? ==>
              EndsSigned(Transactions.UnsignedBytes(tx).value, Transactions.SignedBytes(tx).value, tx.signature)
    ensures Blocks.SignedBytes(x).Some? ==>
              EndsSigned(Blocks.UnsignedBytes(x).value, Blocks.SignedBytes(x).value, x.signature)
  {
    hide Votes.UnsignedBytes, Transactions.UnsignedBytes, Blocks.UnsignedBytes, EncodeBytes, BytesAt;
    if Votes.SignedBytes(v).Some? {
      LastBytes(Votes.SignedBytes(v).value, Votes.UnsignedBytes(v).value, v.signature);
    }
    if Transactions.SignedBytes(tx).Some? {
      LastBytes(Transactions.SignedBytes(tx).value, Transactions.UnsignedBytes(tx).value, tx.signature);
    }
    if Blocks.SignedBytes(x).Some? {
      LastBytes(Blocks.SignedBytes(x).value, Blocks.UnsignedBytes(x).value, x.signature);
    }
  }

  /** In what is hashed for the identifier the signature follows bare, without its length. */
  lemma IdPreimageLayout(tx: Transaction)
    requires IdPreimage(tx).Some?
    ensures var p, u := IdPreimage(tx).value, Transactions.UnsignedBytes(tx).value;
            u <= p && |p| == |u| + |tx.signature| && p[|u|..] == tx.signature
  {
    hide Transactions.UnsignedBytes;
  }

  /** The two phases, spelled out. */
  lemma PhasesAreSpelled()
    ensures |PREVOTE| == |"PREVOTE"| && forall i :: 0 <= i < |PREVOTE| ==> PREVOTE[i] == "PREVOTE"[i] as int
    ensures |PRECOMMIT| == |"PRECOMMIT"| && forall i :: 0 <= i < |PRECOMMIT| ==> PRECOMMIT[i] == "PRECOMMIT"[i] as int
  {
  }
}
