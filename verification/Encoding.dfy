/** The canonical byte encoding, and the decoder it needs.
    An encoder answers None where the source raises ValueError. Every format carries two laws:
    decoding what was encoded gives the value back (…Decodes), and whatever the decoder accepts is
    exactly what the encoder would have written (…IsCanonical). */
module Encoding {
  import opened Wrappers
  import opened Ordering

  // ---------- concatenations ----------

  lemma Assoc(a: Bytes, b: Bytes, c: Bytes)
    ensures (a + b) + c == a + (b + c)
  {
  }

  /** Bytes after a record of five fields are bytes after its last field. */
  lemma Flatten5(a: Bytes, b: Bytes, c: Bytes, d: Bytes, e: Bytes, rest: Bytes)
    ensures (a + (b + (c + (d + e)))) + rest == a + (b + (c + (d + (e + rest))))
  {
    Assoc(d, e, rest);
    Assoc(c, d + e, rest);
    Assoc(b, c + (d + e), rest);
    Assoc(a, b + (c + (d + e)), rest);
  }

  lemma Flatten6(a: Bytes, b: Bytes, c: Bytes, d: Bytes, e: Bytes, f: Bytes, rest: Bytes)
    ensures (a + (b + (c + (d + (e + f))))) + rest == a + (b + (c + (d + (e + (f + rest)))))
  {
    Flatten5(b, c, d, e, f, rest);
    Assoc(a, b + (c + (d + (e + f))), rest);
  }

  lemma Flatten7(a: Bytes, b: Bytes, c: Bytes, d: Bytes, e: Bytes, f: Bytes, g: Bytes, rest: Bytes)
    ensures (a + (b + (c + (d + (e + (f + g)))))) + rest == a + (b + (c + (d + (e + (f + (g + rest))))))
  {
    Flatten6(b, c, d, e, f, g, rest);
    Assoc(a, b + (c + (d + (e + (f + g)))), rest);
  }

  // ---------- integers ----------

  function Pow256(n: nat): (p: nat)
    ensures p > 0
  {
    if n == 0 then 1 else 256 * Pow256(n - 1)
  }

  /** The `width` bytes of value, most significant first. */
  function BigEndian(value: nat, width: nat): (r: Bytes)
    ensures |r| == width
    decreases width
  {
    if width == 0 then [] else BigEndian(value / 256, width - 1) + [value % 256]
  }

  function FromBigEndian(b: Bytes): (v: nat)
  {
    if b == [] then 0 else 256 * FromBigEndian(b[..|b| - 1]) + b[|b| - 1]
  }

  lemma {:induction false} BigEndianDecodes(value: nat, width: nat)
    requires value < Pow256(width)
    ensures FromBigEndian(BigEndian(value, width)) == value
    decreases width
  {
    if width > 0 {
      BigEndianDecodes(value / 256, width - 1);
      var b := BigEndian(value, width);
      assert b[..|b| - 1] == BigEndian(value / 256, width - 1);
    }
  }

  lemma {:induction false} BigEndianIsCanonical(b: Bytes)
    ensures FromBigEndian(b) < Pow256(|b|)
    ensures BigEndian(FromBigEndian(b), |b|) == b
  {
    if b != [] {
      BigEndianIsCanonical(b[..|b| - 1]);
      assert b == b[..|b| - 1] + [b[|b| - 1]];
    }
  }

  const UINT64_LIMIT: int := 0x1_0000_0000_0000_0000
  const UINT32_LIMIT: int := 0x1_0000_0000

  lemma Limits()
    ensures Pow256(4) == UINT32_LIMIT && Pow256(8) == UINT64_LIMIT
  {
    assert Pow256(2) == 65536;
    assert Pow256(4) == 65536 * Pow256(2);
    assert Pow256(6) == 65536 * Pow256(4);
    assert Pow256(8) == 65536 * Pow256(6);
  }

  function EncodeUint64(value: int): (r: Option<Bytes>)
    ensures r.Some? <==> 0 <= value < UINT64_LIMIT
    ensures r.Some? ==> |r.value| == 8
  {
    if 0 <= value < UINT64_LIMIT then Some(BigEndian(value, 8)) else None
  }

  function DecodeUint64(b: Bytes): Option<(nat, Bytes)> {
    if |b| < 8 then None else Some((FromBigEndian(b[..8]), b[8..]))
  }

  lemma Uint64Decodes(value: int, e: Bytes, rest: Bytes)
    requires EncodeUint64(value) == Some(e)
    ensures DecodeUint64(e + rest) == Some((value, rest))
  {
    Limits();
    BigEndianDecodes(value, 8);
    assert (e + rest)[..8] == e && (e + rest)[8..] == rest;
  }

  lemma Uint64IsCanonical(b: Bytes)
    requires DecodeUint64(b).Some?
    ensures EncodeUint64(DecodeUint64(b).value.0) == Some(b[..8])
    ensures b == b[..8] + DecodeUint64(b).value.1
  {
    Limits();
    BigEndianIsCanonical(b[..8]);
  }

  // ---------- byte strings ----------

  /** A four-byte length, then the bytes. Text is encoded the same way, from its UTF-8 bytes. */
  function EncodeBytes(data: Bytes): (r: Option<Bytes>)
    ensures r.Some? <==> |data| < UINT32_LIMIT
  {
    if |data| >= UINT32_LIMIT then None else Some(BigEndian(|data|, 4) + data)
  }

  function DecodeBytes(b: Bytes): Option<(Bytes, Bytes)> {
    if |b| < 4 then None
    else
      var n := FromBigEndian(b[..4]);
      if |b| < 4 + n then None else Some((b[4..4 + n], b[4 + n..]))
  }

  lemma BytesDecodes(data: Bytes, e: Bytes, rest: Bytes)
    requires EncodeBytes(data) == Some(e)
    ensures DecodeBytes(e + rest) == Some((data, rest))
  {
    Limits();
    BigEndianDecodes(|data|, 4);
    var b := e + rest;
    assert b[..4] == BigEndian(|data|, 4);
    assert b[4..4 + |data|] == data && b[4 + |data|..] == rest;
  }

  lemma BytesIsCanonical(b: Bytes)
    requires DecodeBytes(b).Some?
    ensures EncodeBytes(DecodeBytes(b).value.0).Some?
    ensures b == EncodeBytes(DecodeBytes(b).value.0).value + DecodeBytes(b).value.1
  {
    Limits();
    BigEndianIsCanonical(b[..4]);
    var n := FromBigEndian(b[..4]);
    assert b == b[..4] + b[4..4 + n] + b[4 + n..];
  }

  // ---------- optional block hash ----------

  function EncodeOptionalHash(hash: Option<Bytes>): (r: Option<Bytes>)
    ensures r.Some? <==> (hash.Some? ==> |hash.value| == 32)
  {
    match hash
    case None => Some([0])
    case Some(h) => if |h| != 32 then None else Some([1] + h)
  }

  function DecodeOptionalHash(b: Bytes): Option<(Option<Bytes>, Bytes)> {
    if b == [] then None
    else if b[0] == 0 then Some((None, b[1..]))
    else if b[0] == 1 && |b| >= 33 then Some((Some(b[1..33]), b[33..]))
    else None
  }

  lemma OptionalHashDecodes(hash: Option<Bytes>, e: Bytes, rest: Bytes)
    requires EncodeOptionalHash(hash) == Some(e)
    ensures DecodeOptionalHash(e + rest) == Some((hash, rest))
  {
    var b := e + rest;
    if hash.Some? {
      assert b[1..33] == hash.value && b[33..] == rest;
    } else {
      assert b[1..] == rest;
    }
  }

  lemma OptionalHashIsCanonical(b: Bytes)
    requires DecodeOptionalHash(b).Some?
    ensures EncodeOptionalHash(DecodeOptionalHash(b).value.0).Some?
    ensures b == EncodeOptionalHash(DecodeOptionalHash(b).value.0).value + DecodeOptionalHash(b).value.1
  {
    if b[0] == 0 {
      assert b == [0] + b[1..];
    } else {
      assert b == [1] + b[1..33] + b[33..];
    }
  }

  // ---------- lists ----------

  /** Decoding undoes encoding, whatever follows. */
  ghost predicate Decodes<T(!new)>(encode: T -> Option<Bytes>, decode: Bytes -> Option<(T, Bytes)>) {
    forall x: T, rest: Bytes :: encode(x).Some? ==> decode(encode(x).value + rest) == Some((x, rest))
  }

  /** What is decoded is what would have been encoded. */
  ghost predicate Canonical<T(!new)>(encode: T -> Option<Bytes>, decode: Bytes -> Option<(T, Bytes)>) {
    forall b: Bytes :: decode(b).Some? ==>
      encode(decode(b).value.0).Some? && b == encode(decode(b).value.0).value + decode(b).value.1
  }

  /** The elements encoded one after the other. */
  function EncodeAll<T>(encode: T -> Option<Bytes>, xs: seq<T>): Option<Bytes> {
    if xs == [] then Some([])
    else
      var x :- encode(xs[0]);
      var rest :- EncodeAll(encode, xs[1..]);
      Some(x + rest)
  }

  function DecodeAll<T>(decode: Bytes -> Option<(T, Bytes)>, b: Bytes, count: nat): Option<(seq<T>, Bytes)>
    decreases count
  {
    if count == 0 then Some(([], b))
    else
      var (x, b1) :- decode(b);
      var (xs, b2) :- DecodeAll(decode, b1, count - 1);
      Some(([x] + xs, b2))
  }

  lemma {:induction false} ListDecodes<T(!new)>(encode: T -> Option<Bytes>, decode: Bytes -> Option<(T, Bytes)>,
                                                xs: seq<T>, e: Bytes, rest: Bytes)
    requires Decodes(encode, decode) && EncodeAll(encode, xs) == Some(e)
    ensures DecodeAll(decode, e + rest, |xs|) == Some((xs, rest))
  {
    if xs == [] {
      assert e + rest == rest;
    } else {
      var x, t := encode(xs[0]).value, EncodeAll(encode, xs[1..]).value;
      assert e + rest == x + (t + rest);
      ListDecodes(encode, decode, xs[1..], t, rest);
      assert xs == [xs[0]] + xs[1..];
    }
  }

  lemma {:induction false} ListIsCanonical<T(!new)>(encode: T -> Option<Bytes>,
                                                    decode: Bytes -> Option<(T, Bytes)>, b: Bytes, count: nat)
    requires Canonical(encode, decode) && DecodeAll(decode, b, count).Some?
    ensures var (xs, rest) := DecodeAll(decode, b, count).value;
            |xs| == count && EncodeAll(encode, xs).Some? && b == EncodeAll(encode, xs).value + rest
    decreases count
  {
    if count > 0 {
      var (x, b1) := decode(b).value;
      var (xs, rest) := DecodeAll(decode, b1, count - 1).value;
      ListIsCanonical(encode, decode, b1, count - 1);
      assert ([x] + xs)[1..] == xs;
      var ex, et := encode(x).value, EncodeAll(encode, xs).value;
      assert ex + (et + rest) == (ex + et) + rest;
    }
  }

  /** Encoding a concatenation concatenates the encodings; an element that cannot be encoded spoils
      every list it is in. */
  lemma {:induction false} EncodeAllAppend<T>(encode: T -> Option<Bytes>, a: seq<T>, b: seq<T>)
    ensures EncodeAll(encode, a + b) ==
            if EncodeAll(encode, a).Some? && EncodeAll(encode, b).Some?
            then Some(EncodeAll(encode, a).value + EncodeAll(encode, b).value) else None
  {
    if a == [] {
      assert a + b == b;
      if EncodeAll(encode, b).Some? { assert [] + EncodeAll(encode, b).value == EncodeAll(encode, b).value; }
    } else {
      assert (a + b)[0] == a[0] && (a + b)[1..] == a[1..] + b;
      EncodeAllAppend(encode, a[1..], b);
      var x, t, u := encode(a[0]), EncodeAll(encode, a[1..]), EncodeAll(encode, b);
      if x.Some? && t.Some? && u.Some? {
        assert x.value + (t.value + u.value) == (x.value + t.value) + u.value;
      }
    }
  }

  /** The bytearray loops of the source: append the encoding of each element to the buffer. */
  method AppendAll<T>(encode: T -> Option<Bytes>, xs: seq<T>) returns (r: Option<Bytes>)
    ensures r == EncodeAll(encode, xs)
  {
    var result: Bytes := [];
    ghost var before: seq<T> := [];
    for i := 0 to |xs|
      invariant before == xs[..i]
      invariant EncodeAll(encode, before) == Some(result)
    {
      var chunk := encode(xs[i]);
      EncodeAllStep(encode, before, xs[i], xs[i + 1..]);
      assert xs == before + [xs[i]] + xs[i + 1..];
      if chunk == None {
        return None;
      }
      result := result + chunk.value;
      before := before + [xs[i]];
    }
    assert before == xs;
    r := Some(result);
  }

  lemma EncodeAllStep<T>(encode: T -> Option<Bytes>, before: seq<T>, x: T, after: seq<T>)
    requires EncodeAll(encode, before).Some?
    ensures encode(x).Some? ==>
              EncodeAll(encode, before + [x]) == Some(EncodeAll(encode, before).value + encode(x).value)
    ensures encode(x).None? ==> EncodeAll(encode, before + [x] + after) == None
  {
    var none: seq<T> := [x][1..];
    assert EncodeAll(encode, none) == Some([]);
    if encode(x).Some? { assert encode(x).value + [] == encode(x).value; }
    EncodeAllAppend(encode, before, [x]);
    EncodeAllAppend(encode, before + [x], after);
  }

  // ---------- maps ----------

  type Entry = (Bytes, Bytes)

  /** The (key, value) pairs of m in the order of the sorted keys. */
  ghost function Items<V>(m: map<Bytes, V>): (es: seq<(Bytes, V)>)
    ensures |es| == |m|
    ensures Firsts(es) == Sorted(m.Keys)
    ensures forall i :: 0 <= i < |es| ==> es[i].0 in m && es[i].1 == m[es[i].0]
  {
    var ks := Sorted(m.Keys);
    assert forall i :: 0 <= i < |ks| ==> ks[i] in m by {
      forall i | 0 <= i < |ks| ensures ks[i] in m {
        assert ks[i] in Elements(ks);
      }
    }
    seq(|ks|, i requires 0 <= i < |ks| => (ks[i], m[ks[i]]))
  }

  function Firsts<V>(es: seq<(Bytes, V)>): (ks: seq<Bytes>)
    ensures |ks| == |es|
    ensures forall i :: 0 <= i < |es| ==> ks[i] == es[i].0
  {
    seq(|es|, i requires 0 <= i < |es| => es[i].0)
  }

  /** The dictionary built by storing the pairs in order, so a later pair wins. */
  function MapOf<V>(es: seq<(Bytes, V)>): map<Bytes, V> {
    if es == [] then map[] else MapOf(es[..|es| - 1])[es[|es| - 1].0 := es[|es| - 1].1]
  }

  lemma FirstsSplit<V>(es: seq<(Bytes, V)>)
    requires es != []
    ensures Firsts(es) == Firsts(es[..|es| - 1]) + [es[|es| - 1].0]
    ensures Elements(Firsts(es)) == Elements(Firsts(es[..|es| - 1])) + {es[|es| - 1].0}
  {
    assert Firsts(es) == Firsts(es[..|es| - 1]) + [es[|es| - 1].0];
  }

  /** The last of strictly sorted keys is new. */
  lemma LastIsNew(ks: seq<Bytes>, k: Bytes)
    requires StrictlySorted(ks + [k])
    ensures StrictlySorted(ks) && forall i :: 0 <= i < |ks| ==> ks[i] != k
  {
    forall i | 0 <= i < |ks| ensures ks[i] != k {
      assert Less((ks + [k])[i], (ks + [k])[|ks|]);
      LessIsIrreflexive(k);
    }
    forall i, j | 0 <= i < j < |ks| ensures Less(ks[i], ks[j]) {
      assert (ks + [k])[i] == ks[i] && (ks + [k])[j] == ks[j];
    }
  }

  lemma UpdateKeys<V>(m: map<Bytes, V>, k: Bytes, v: V)
    ensures m[k := v].Keys == m.Keys + {k}
  {
  }

  lemma {:induction false} MapOfKeys<V>(es: seq<(Bytes, V)>)
    ensures MapOf(es).Keys == Elements(Firsts(es))
  {
    if es == [] {
      assert Elements(Firsts(es)) == {};
    } else {
      FirstsSplit(es);
      MapOfKeys(es[..|es| - 1]);
      hide Elements, Firsts;
      UpdateKeys(MapOf(es[..|es| - 1]), es[|es| - 1].0, es[|es| - 1].1);
    }
  }

  /** Every pair is found under its key. */
  ghost predicate Stores<V>(m: map<Bytes, V>, es: seq<(Bytes, V)>) {
    forall i :: 0 <= i < |es| ==> es[i].0 in m && m[es[i].0] == es[i].1
  }

  lemma StoresOneMore<V>(m: map<Bytes, V>, es: seq<(Bytes, V)>, e: (Bytes, V))
    requires Stores(m, es) && Fresh(es, e.0)
    ensures Stores(m[e.0 := e.1], es + [e])
  {
  }

  ghost predicate Fresh<V>(es: seq<(Bytes, V)>, k: Bytes) {
    forall i :: 0 <= i < |es| ==> es[i].0 != k
  }

  lemma LastKeyIsFresh<V>(es: seq<(Bytes, V)>, e: (Bytes, V))
    requires StrictlySorted(Firsts(es + [e]))
    ensures StrictlySorted(Firsts(es)) && Fresh(es, e.0)
  {
    assert Firsts(es + [e]) == Firsts(es) + [e.0];
    LastIsNew(Firsts(es), e.0);
    hide StrictlySorted;
    forall i | 0 <= i < |es| ensures es[i].0 != e.0 {
      assert Firsts(es)[i] == es[i].0;
    }
  }

  lemma {:induction false} PairsAreStored<V>(es: seq<(Bytes, V)>)
    requires StrictlySorted(Firsts(es))
    ensures Stores(MapOf(es), es)
  {
    if es != [] {
      hide StrictlySorted, Firsts, Fresh;
      var init, e := es[..|es| - 1], es[|es| - 1];
      assert init + [e] == es;
      LastKeyIsFresh(init, e);
      PairsAreStored(init);
      StoresOneMore(MapOf(init), init, e);
      hide Stores;
    }
  }

  lemma MapOfDistinct<V>(es: seq<(Bytes, V)>)
    requires StrictlySorted(Firsts(es))
    ensures MapOf(es).Keys == Elements(Firsts(es)) && Stores(MapOf(es), es)
  {
    MapOfKeys(es);
    PairsAreStored(es);
  }

  /** Listing a map in order and storing the pairs again gives the map back. */
  lemma MapOfItems<V>(m: map<Bytes, V>)
    ensures MapOf(Items(m)) == m
  {
    var es := Items(m);
    MapOfDistinct(es);
    forall k | k in m ensures MapOf(es)[k] == m[k] {
      hide MapOf, Items, Sorted, StrictlySorted;
      assert k in Elements(Firsts(es));
      var i :| 0 <= i < |es| && Firsts(es)[i] == k;
      assert es[i].0 == k;
    }
    hide MapOf, Items, StrictlySorted, Firsts, Elements;
  }

  /** A strictly sorted list of pairs is the only listing of its map. */
  lemma ItemsOfMap<V>(es: seq<(Bytes, V)>)
    requires StrictlySorted(Firsts(es))
    ensures Items(MapOf(es)) == es
  {
    MapOfDistinct(es);
    var its := Items(MapOf(es));
    SortedIsUnique(Firsts(its), Firsts(es));
    assert |its| == |Firsts(its)| == |es|;
    forall i | 0 <= i < |es| ensures its[i] == es[i] {
      assert its[i].0 == Firsts(its)[i] == es[i].0;
    }
  }

  function EncodeEntry(e: Entry): Option<Bytes> {
    var k :- EncodeBytes(e.0);
    var v :- EncodeBytes(e.1);
    Some(k + v)
  }

  function DecodeEntry(b: Bytes): Option<(Entry, Bytes)> {
    var (k, b1) :- DecodeBytes(b);
    var (v, b2) :- DecodeBytes(b1);
    Some(((k, v), b2))
  }

  lemma EntryDecodes(e: Entry, rest: Bytes)
    requires EncodeEntry(e).Some?
    ensures DecodeEntry(EncodeEntry(e).value + rest) == Some((e, rest))
  {
    var k, v := EncodeBytes(e.0).value, EncodeBytes(e.1).value;
    assert (k + v) + rest == k + (v + rest);
    BytesDecodes(e.0, k, v + rest);
    BytesDecodes(e.1, v, rest);
    hide EncodeBytes, DecodeBytes;
  }

  lemma EntryIsCanonical(b: Bytes)
    requires DecodeEntry(b).Some?
    ensures EncodeEntry(DecodeEntry(b).value.0).Some?
    ensures b == EncodeEntry(DecodeEntry(b).value.0).value + DecodeEntry(b).value.1
  {
    BytesIsCanonical(b);
    BytesIsCanonical(DecodeBytes(b).value.1);
    hide EncodeBytes, DecodeBytes;
  }

  lemma EntryLaws()
    ensures Decodes(EncodeEntry, DecodeEntry) && Canonical(EncodeEntry, DecodeEntry)
  {
    hide EncodeEntry, DecodeEntry;
    forall e: Entry, rest: Bytes | EncodeEntry(e).Some?
      ensures DecodeEntry(EncodeEntry(e).value + rest) == Some((e, rest))
    {
      EntryDecodes(e, rest);
    }
    forall b | DecodeEntry(b).Some?
      ensures EncodeEntry(DecodeEntry(b).value.0).Some?
      ensures b == EncodeEntry(DecodeEntry(b).value.0).value + DecodeEntry(b).value.1
    {
      EntryIsCanonical(b);
    }
  }

  /** The canonical bytes of a map: entry count, then the pairs in key order. */
  ghost function MapBytes(m: map<Bytes, Bytes>): Option<Bytes> {
    var count :- EncodeUint64(|m|);
    var body :- EncodeAll(EncodeEntry, Items(m));
    Some(count + body)
  }

  /** The decoder: it refuses keys out of order or repeated, and trailing bytes. */
  function DecodeMap(b: Bytes): Option<map<Bytes, Bytes>> {
    var (count, b1) :- DecodeUint64(b);
    var (es, b2) :- DecodeAll(DecodeEntry, b1, count);
    if b2 == [] && StrictlySorted(Firsts(es)) then Some(MapOf(es)) else None
  }

  /** Decoding the canonical bytes recovers the map, so they are injective on maps. */
  lemma MapDecodes(m: map<Bytes, Bytes>, b: Bytes)
    requires MapBytes(m) == Some(b)
    ensures DecodeMap(b) == Some(m)
  {
    var count := EncodeUint64(|m|).value;
    var body := EncodeAll(EncodeEntry, Items(m)).value;
    Uint64Decodes(|m|, count, body);
    assert body + [] == body;
    EntryLaws();
    ListDecodes(EncodeEntry, DecodeEntry, Items(m), body, []);
    MapOfItems(m);
  }

  /** A map has one accepted byte form: what decodes to m is the canonical bytes of m. */
  lemma MapIsCanonical(b: Bytes, m: map<Bytes, Bytes>)
    requires DecodeMap(b) == Some(m)
    ensures MapBytes(m) == Some(b)
  {
    var (count, b1) := DecodeUint64(b).value;
    var (es, b2) := DecodeAll(DecodeEntry, b1, count).value;
    Uint64IsCanonical(b);
    EntryLaws();
    ListIsCanonical(EncodeEntry, DecodeEntry, b1, count);
    ItemsOfMap(es);
    assert |m| == |es| == count;
    assert EncodeAll(EncodeEntry, es).value + [] == EncodeAll(EncodeEntry, es).value;
  }

  method CollectPairs<V>(values: map<Bytes, V>, keys: seq<Bytes>) returns (entries: seq<(Bytes, V)>)
    requires forall i :: 0 <= i < |keys| ==> keys[i] in values
    ensures |entries| == |keys|
    ensures forall i :: 0 <= i < |keys| ==> entries[i] == (keys[i], values[keys[i]])
  {
    entries := [];
    for i := 0 to |keys|
      invariant |entries| == i
      invariant forall j :: 0 <= j < i ==> entries[j] == (keys[j], values[keys[j]])
    {
      entries := entries + [(keys[i], values[keys[i]])];
    }
  }

  /** The first half of `encode_sorted_map`, and every `items()` of the source: the pairs by key. */
  method SortedItems<V>(values: map<Bytes, V>) returns (entries: seq<(Bytes, V)>)
    ensures entries == Items(values)
  {
    var keys := SortSet(values.Keys);
    ghost var all := Items(values);
    assert forall i :: 0 <= i < |all| ==> keys[i] == all[i].0;
    entries := CollectPairs(values, keys);
    assert entries == all;
  }

  /** `encode_sorted_map`. */
  method EncodeSortedMap(values: map<Bytes, Bytes>) returns (r: Option<Bytes>)
    ensures r == MapBytes(values)
  {
    var entries := SortedItems(values);
    var count := EncodeUint64(|entries|);
    if count == None {
      return None;
    }
    var body := AppendAll(EncodeEntry, entries);
    if body == None {
      return None;
    }
    r := Some(count.value + body.value);
  }
}
