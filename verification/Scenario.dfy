/** The safety check of the scenario runner (src/scenario.py): it is exact, and no reachable system fails it. */
module Scenario {
  import opened Ordering
  import opened Ledgers
  import opened Agreement

  /** Per height, the hashes seen and the nodes that hold each, in node order. */
  type Seen = map<int, map<Bytes, seq<Bytes>>>

  datatype Violation = Violation(height: int, conflicting: map<Bytes, seq<Bytes>>)

  /** The finalized hashes of each registered node. */
  type Registered = map<Bytes, Entries>

  ghost predicate Holds(ledgers: Registered, node: Bytes, h: int, hash: Bytes) {
    node in ledgers && h in ledgers[node] && ledgers[node][h].blockHash == hash
  }

  ghost predicate Conflict(ledgers: Registered, h: int) {
    exists p, q :: p in ledgers && q in ledgers && h in ledgers[p] && h in ledgers[q]
                   && ledgers[p][h].blockHash != ledgers[q][h].blockHash
  }

  /** The table after the nodes in `done`, and the heights in `part` of the node `current`. */
  ghost predicate Table(seen: Seen, ledgers: Registered, done: set<Bytes>, current: Bytes, part: set<int>) {
    forall h, hash, p ::
      (h in seen && hash in seen[h] && p in seen[h][hash]) <==>
      (Holds(ledgers, p, h, hash) && (p in done || (p == current && h in part)))
  }

  ghost predicate NonEmpty(seen: Seen) {
    forall h, hash :: h in seen && hash in seen[h] ==> seen[h][hash] != []
  }

  /** The holders of each hash are in node order. */
  ghost predicate InNodeOrder(seen: Seen) {
    forall h, hash :: h in seen && hash in seen[h] ==> StrictlySorted(seen[h][hash])
  }

  /** `setdefault(height, {}).setdefault(hash, []).append(node)`. */
  function Record(seen: Seen, h: int, hash: Bytes, node: Bytes): Seen {
    var byHash := if h in seen then seen[h] else map[];
    var nodes := if hash in byHash then byHash[hash] else [];
    seen[h := byHash[hash := nodes + [node]]]
  }

  lemma RecordExtends(seen: Seen, ledgers: Registered, done: set<Bytes>, node: Bytes, part: set<int>, h: int)
    requires Table(seen, ledgers, done, node, part) && NonEmpty(seen) && node in ledgers && h in ledgers[node]
    ensures Table(Record(seen, h, ledgers[node][h].blockHash, node), ledgers, done, node, part + {h})
    ensures NonEmpty(Record(seen, h, ledgers[node][h].blockHash, node))
  {
    var hash := ledgers[node][h].blockHash;
    var next := Record(seen, h, hash, node);
    forall g, x, p
      ensures (g in next && x in next[g] && p in next[g][x]) <==>
              ((g in seen && x in seen[g] && p in seen[g][x]) || (g == h && x == hash && p == node))
    {
    }
  }

  lemma SortedAppends(nodes: seq<Bytes>, node: Bytes)
    requires StrictlySorted(nodes) && forall p :: p in nodes ==> Less(p, node)
    ensures StrictlySorted(nodes + [node])
  {
    assert forall i :: 0 <= i < |nodes| ==> nodes[i] in nodes;
  }

  lemma RecordKeepsOrder(seen: Seen, ledgers: Registered, done: set<Bytes>, node: Bytes, part: set<int>, h: int,
                         hash: Bytes)
    requires Table(seen, ledgers, done, node, part) && InNodeOrder(seen) && h !in part
    requires forall p :: p in done ==> Less(p, node)
    ensures InNodeOrder(Record(seen, h, hash, node))
  {
    var nodes := if h in seen && hash in seen[h] then seen[h][hash] else [];
    assert StrictlySorted(nodes);
    forall p | p in nodes ensures Less(p, node) {
      assert h in seen && hash in seen[h] && p in seen[h][hash];
    }
    SortedAppends(nodes, node);
    hide StrictlySorted, Less, Table;
  }

  method LeastInt(s: set<int>) returns (m: int)
    requires s != {}
    ensures m in s && forall x :: x in s ==> m <= x
  {
    SomeElement(s);
    m :| m in s;
    var rest := s - {m};
    while rest != {}
      invariant m in s && rest <= s
      invariant forall x :: x in s && x !in rest ==> m <= x
      decreases |rest|
    {
      SomeElement(rest);
      var x :| x in rest;
      if x < m {
        m := x;
      }
      rest := rest - {x};
    }
  }

  ghost predicate Ascending(s: seq<int>) {
    forall i, j :: 0 <= i < j < |s| ==> s[i] < s[j]
  }

  method SortHeights(s: set<int>) returns (heights: seq<int>)
    ensures Ascending(heights) && forall h :: h in s <==> h in heights
  {
    heights := [];
    var rest := s;
    while rest != {}
      invariant Ascending(heights) && forall h :: h in s <==> h in heights || h in rest
      invariant forall i, g :: 0 <= i < |heights| && g in rest ==> heights[i] < g
      decreases |rest|
    {
      var h := LeastInt(rest);
      heights, rest := heights + [h], rest - {h};
    }
  }

  ghost predicate Listed(violations: seq<Violation>, h: int) {
    exists i :: 0 <= i < |violations| && violations[i].height == h
  }

  /** Exactly the heights in `done` with two hashes are listed, in ascending order. */
  ghost predicate Lists(violations: seq<Violation>, seen: Seen, done: seq<int>) {
    (forall h :: Listed(violations, h) <==> h in done && h in seen && |seen[h]| > 1)
    && (forall i :: 0 <= i < |violations| ==>
          violations[i].height in seen && violations[i].conflicting == seen[violations[i].height])
    && (forall i, j :: 0 <= i < j < |violations| ==> violations[i].height < violations[j].height)
  }

  lemma ListedAppends(violations: seq<Violation>, v: Violation, h: int)
    ensures Listed(violations + [v], h) <==> Listed(violations, h) || h == v.height
  {
    var next := violations + [v];
    assert next[|violations|] == v;
    if Listed(violations, h) {
      var i :| 0 <= i < |violations| && violations[i].height == h;
      assert next[i].height == h;
    }
  }

  lemma ListsOne(violations: seq<Violation>, seen: Seen, done: seq<int>, h: int)
    requires Lists(violations, seen, done) && h in seen && Ascending(done + [h])
    ensures Lists(if |seen[h]| > 1 then violations + [Violation(h, seen[h])] else violations, seen, done + [h])
  {
    forall i | 0 <= i < |violations| ensures violations[i].height < h {
      assert Listed(violations, violations[i].height);
      var k :| 0 <= k < |done| && done[k] == violations[i].height;
      assert (done + [h])[k] == done[k] && (done + [h])[|done|] == h;
    }
    hide Ascending;
    if |seen[h]| > 1 {
      forall g ensures Listed(violations + [Violation(h, seen[h])], g) <==> Listed(violations, g) || g == h {
        ListedAppends(violations, Violation(h, seen[h]), g);
      }
    }
    hide Listed;
  }

  lemma AscendingPrefix(s: seq<int>, i: nat)
    requires Ascending(s) && i < |s|
    ensures Ascending(s[..i] + [s[i]]) && s[..i + 1] == s[..i] + [s[i]]
  {
  }

  lemma NothingListed(seen: Seen)
    ensures Lists([], seen, [])
  {
  }

  /** The entries of the table with more than one hash. */
  method ListViolations(seen: Seen) returns (violations: seq<Violation>)
    ensures forall h :: Listed(violations, h) <==> h in seen && |seen[h]| > 1
    ensures forall i :: 0 <= i < |violations| ==>
              violations[i].height in seen && violations[i].conflicting == seen[violations[i].height]
    ensures forall i, j :: 0 <= i < j < |violations| ==> violations[i].height < violations[j].height
  {
    hide Ascending, Listed;
    violations := [];
    var heights := SortHeights(seen.Keys);
    NothingListed(seen);
    for i := 0 to |heights|
      invariant Lists(violations, seen, heights[..i])
    {
      hide Lists;
      var h := heights[i];
      assert h in heights;
      AscendingPrefix(heights, i);
      ListsOne(violations, seen, heights[..i], h);
      if |seen[h]| > 1 {
        violations := violations + [Violation(h, seen[h])];
      }
    }
    assert heights[..|heights|] == heights;
  }

  lemma PrefixElements(s: seq<Bytes>, i: nat)
    requires i < |s|
    ensures Elements(s[..i + 1]) == Elements(s[..i]) + {s[i]}
  {
    assert s[..i + 1] == s[..i] + [s[i]];
  }

  /** `_assert_safety`: in ascending order, the heights at which two registered nodes finalized different blocks, and
      no other; with each of them every hash and every node that holds it, in node order. */
  method AssertSafety(ledgers: Registered) returns (violations: seq<Violation>)
    ensures forall h :: Listed(violations, h) <==> Conflict(ledgers, h)
    ensures forall i, hash, p :: 0 <= i < |violations| ==>
              ((hash in violations[i].conflicting && p in violations[i].conflicting[hash]) <==>
               Holds(ledgers, p, violations[i].height, hash))
    ensures forall i, hash :: 0 <= i < |violations| && hash in violations[i].conflicting ==>
              StrictlySorted(violations[i].conflicting[hash])
    ensures forall i, j :: 0 <= i < j < |violations| ==> violations[i].height < violations[j].height
  {
    hide Table, NonEmpty, Conflict, Holds, Listed, StrictlySorted;
    var seen := CollectHashes(ledgers);
    violations := ListViolations(seen);
    forall h ensures Conflict(ledgers, h) <==> h in seen && |seen[h]| > 1 {
      ConflictIsSeen(seen, ledgers, h);
    }
    forall i, hash, p | 0 <= i < |violations|
      ensures (hash in violations[i].conflicting && p in violations[i].conflicting[hash]) <==>
              Holds(ledgers, p, violations[i].height, hash)
    {
      TableMeans(seen, ledgers, violations[i].height, hash, p);
    }
  }

  lemma TableMeans(seen: Seen, ledgers: Registered, h: int, hash: Bytes, p: Bytes)
    requires Table(seen, ledgers, ledgers.Keys, [], {})
    ensures (h in seen && hash in seen[h] && p in seen[h][hash]) <==> Holds(ledgers, p, h, hash)
  {
  }

  lemma EmptyTable(ledgers: Registered, node: Bytes)
    ensures Table(map[], ledgers, {}, node, {}) && NonEmpty(map[]) && InNodeOrder(map[])
  {
  }

  lemma IndexIsElement(s: seq<Bytes>, i: nat)
    requires i < |s|
    ensures s[i] in Elements(s)
  {
  }

  lemma NoElements()
    ensures Elements<Bytes>([]) == {}
  {
  }

  lemma EarlierNodes(nodes: seq<Bytes>, i: nat)
    requires StrictlySorted(nodes) && i < |nodes|
    ensures forall p :: p in Elements(nodes[..i]) ==> Less(p, nodes[i])
  {
    hide Less;
  }

  method CollectHashes(ledgers: Registered) returns (seen: Seen)
    ensures NonEmpty(seen) && InNodeOrder(seen) && Table(seen, ledgers, ledgers.Keys, [], {})
  {
    hide Table, NonEmpty, InNodeOrder, Elements, StrictlySorted, Sorted, Less;
    seen := map[];
    EmptyTable(ledgers, []);
    var nodes := SortSet(ledgers.Keys);
    ghost var done: set<Bytes> := {};
    assert nodes[..0] == [];
    NoElements();
    for i := 0 to |nodes|
      invariant done == Elements(nodes[..i]) && NonEmpty(seen) && InNodeOrder(seen)
      invariant Table(seen, ledgers, done, [], {})
    {
      var node := nodes[i];
      PrefixElements(nodes, i);
      IndexIsElement(nodes, i);
      EarlierNodes(nodes, i);
      seen := CollectNode(ledgers, seen, node, done);
      done := done + {node};
    }
    assert nodes[..|nodes|] == nodes;
  }

  method CollectNode(ledgers: Registered, before: Seen, node: Bytes, ghost done: set<Bytes>) returns (seen: Seen)
    requires NonEmpty(before) && InNodeOrder(before) && Table(before, ledgers, done, [], {}) && node in ledgers
    requires forall p :: p in done ==> Less(p, node)
    ensures NonEmpty(seen) && InNodeOrder(seen) && Table(seen, ledgers, done + {node}, [], {})
  {
    hide InNodeOrder, Less;
    seen := before;
    var heights := ledgers[node].Keys;
    while heights != {}
      invariant heights <= ledgers[node].Keys
      invariant NonEmpty(seen) && InNodeOrder(seen) && Table(seen, ledgers, done, node, ledgers[node].Keys - heights)
      decreases |heights|
    {
      SomeElement(heights);
      var h :| h in heights;
      RecordExtends(seen, ledgers, done, node, ledgers[node].Keys - heights, h);
      RecordKeepsOrder(seen, ledgers, done, node, ledgers[node].Keys - heights, h, ledgers[node][h].blockHash);
      seen := Record(seen, h, ledgers[node][h].blockHash, node);
      assert ledgers[node].Keys - (heights - {h}) == ledgers[node].Keys - heights + {h};
      heights := heights - {h};
    }
    assert ledgers[node].Keys - heights == ledgers[node].Keys;
  }

  lemma ConflictIsSeen(seen: Seen, ledgers: Registered, h: int)
    requires NonEmpty(seen) && Table(seen, ledgers, ledgers.Keys, [], {})
    ensures Conflict(ledgers, h) <==> h in seen && |seen[h]| > 1
  {
    if Conflict(ledgers, h) {
      var p, q :| p in ledgers && q in ledgers && h in ledgers[p] && h in ledgers[q]
                  && ledgers[p][h].blockHash != ledgers[q][h].blockHash;
      assert Holds(ledgers, p, h, ledgers[p][h].blockHash) && Holds(ledgers, q, h, ledgers[q][h].blockHash);
      assert {ledgers[p][h].blockHash, ledgers[q][h].blockHash} <= seen[h].Keys;
      VoteCounting.SubsetSize({ledgers[p][h].blockHash, ledgers[q][h].blockHash}, seen[h].Keys);
    }
    if h in seen && |seen[h]| > 1 {
      var x, y := TwoElements(seen[h].Keys);
      assert seen[h][x][0] in seen[h][x] && seen[h][y][0] in seen[h][y];
      assert Holds(ledgers, seen[h][x][0], h, x) && Holds(ledgers, seen[h][y][0], h, y);
    }
  }

  lemma TwoElements(s: set<Bytes>) returns (x: Bytes, y: Bytes)
    requires |s| > 1
    ensures x in s && y in s && x != y
  {
    x :| x in s;
    assert |s - {x}| >= 1;
    y :| y in s - {x};
  }

  /** What the runner sees of the correct validators. */
  ghost function FinalizedOf(s: System): Registered {
    map p | p in s.replicas :: s.replicas[p].ledger.entries
  }

  /** Registering the correct validators of any reachable system, the check never reports a violation. */
  lemma ReachableIsSafe(P: Params, s: System, steps: seq<Step>, h: int)
    requires P.committee.Valid() && Init(P, s) && Reach(P, s, steps).Some?
    ensures !Conflict(FinalizedOf(Reach(P, s, steps).value), h)
  {
    hide Init, Reach;
    var t := Reach(P, s, steps).value;
    assert steps[..|steps|] == steps;
    forall p, q | p in t.replicas && q in t.replicas && h in t.replicas[p].ledger.entries
                  && h in t.replicas[q].ledger.entries
      ensures t.replicas[p].ledger.entries[h].blockHash == t.replicas[q].ledger.entries[h].blockHash
    {
      AgreementHolds(P, s, steps, |steps|, |steps|, p, q, h);
    }
  }
}
