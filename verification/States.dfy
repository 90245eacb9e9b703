/** The key-value state and its commitment (src/state.py). */
module States {
  import opened Wrappers
  import opened Ordering
  import opened Encoding
  import opened Crypto

  type Contents = map<Bytes, Bytes>

  /** The commitment: the digest of the canonical bytes. */
  ghost function StateHash(c: Primitives, m: Contents): Option<Digest> {
    var bytes :- MapBytes(m);
    Some(c.hash(bytes))
  }

  /** Two states with the same commitment are equal, unless their canonical bytes collide. */
  lemma StateHashCommits(c: Primitives, a: Contents, b: Contents, inputs: set<Bytes>)
    requires StateHash(c, a).Some? && StateHash(c, a) == StateHash(c, b)
    requires CollisionFree(c, inputs) && MapBytes(a).value in inputs && MapBytes(b).value in inputs
    ensures a == b
  {
    MapDecodes(a, MapBytes(a).value);
    MapDecodes(b, MapBytes(b).value);
  }

  /** No key is written with two values. */
  ghost predicate Consistent(writes: seq<Entry>) {
    forall i, j :: 0 <= i < |writes| && 0 <= j < |writes| && writes[i].0 == writes[j].0 ==> writes[i] == writes[j]
  }

  lemma {:induction false} WritesAreContents(writes: seq<Entry>)
    requires Consistent(writes)
    ensures forall k, v :: (k in MapOf(writes) && MapOf(writes)[k] == v) <==> (k, v) in writes
  {
    if writes != [] {
      var n := |writes| - 1;
      WritesAreContents(writes[..n]);
      assert writes == writes[..n] + [writes[n]];
    }
  }

  /** The commitment does not depend on the order, or the number of times, in which consistent writes
      were made. */
  lemma InsertionOrderIsIrrelevant(c: Primitives, a: seq<Entry>, b: seq<Entry>)
    requires Consistent(a) && Consistent(b) && Elements(a) == Elements(b)
    ensures StateHash(c, MapOf(a)) == StateHash(c, MapOf(b))
  {
    WritesAreContents(a);
    WritesAreContents(b);
    forall k | k in MapOf(a) || k in MapOf(b)
      ensures k in MapOf(a) && k in MapOf(b) && MapOf(a)[k] == MapOf(b)[k]
    {
      var v := if k in MapOf(a) then MapOf(a)[k] else MapOf(b)[k];
      assert (k, v) in a || (k, v) in b;
      assert (k, v) in Elements(a) || (k, v) in Elements(b);
      assert (k, v) in a && (k, v) in b;
    }
    assert MapOf(a) == MapOf(b);
  }

  /** The dictionary is changed in place; every read goes through the sorted order. */
  class State {
    var entries: Contents

    constructor ()
      ensures entries == map[]
    {
      entries := map[];
    }

    /** An empty key is refused; otherwise the latest value wins. */
    method Insert(key: Bytes, value: Bytes) returns (ok: bool)
      modifies this
      ensures ok <==> key != []
      ensures entries == if ok then old(entries)[key := value] else old(entries)
    {
      ok := key != [];
      if ok {
        entries := entries[key := value];
      }
    }

    /** None stands for the ValueError on an empty key. */
    method Delete(key: Bytes) returns (existed: Option<bool>)
      modifies this
      ensures existed == if key == [] then None else Some(key in old(entries))
      ensures entries == if key == [] then old(entries) else old(entries) - {key}
    {
      if key == [] {
        return None;
      }
      existed := Some(key in entries);
      entries := entries - {key};
    }

    /** An independent copy: later writes to either object do not show in the other. */
    method Copy() returns (clone: State)
      ensures fresh(clone) && clone.entries == entries
    {
      clone := new State();
      clone.entries := entries;
    }

    method Items() returns (r: seq<Entry>)
      ensures r == Encoding.Items(entries)
    {
      r := SortedItems(entries);
    }

    method Commitment(c: Primitives) returns (r: Option<Digest>)
      ensures r == StateHash(c, entries)
    {
      var bytes := EncodeSortedMap(entries);
      r := match bytes case None => None case Some(b) => Some(c.hash(b));
    }
  }
}
