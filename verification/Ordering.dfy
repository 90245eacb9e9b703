/** Byte strings, their lexicographic order, and sorting a set of them.
    Python compares `bytes` in this order, and so does every `sorted(...)` of the source. */
module Ordering {
  import opened Wrappers

  type byte = x: int | 0 <= x < 256

  type Bytes = seq<byte>

  /** a < b on byte strings: the first differing byte decides, a proper prefix comes first. */
  predicate Less(a: Bytes, b: Bytes) {
    if a == [] then b != []
    else b != [] && (a[0] < b[0] || (a[0] == b[0] && Less(a[1..], b[1..])))
  }

  lemma {:induction false} LessIsIrreflexive(a: Bytes)
    ensures !Less(a, a)
  {
    if a != [] {
      LessIsIrreflexive(a[1..]);
    }
  }

  lemma {:induction false} LessIsTransitive(a: Bytes, b: Bytes, c: Bytes)
    requires Less(a, b) && Less(b, c)
    ensures Less(a, c)
  {
    if a != [] && a[0] == b[0] == c[0] {
      LessIsTransitive(a[1..], b[1..], c[1..]);
    }
  }

  lemma {:induction false} LessIsTotal(a: Bytes, b: Bytes)
    ensures a == b || Less(a, b) || Less(b, a)
  {
    if a != [] && b != [] && a[0] == b[0] {
      LessIsTotal(a[1..], b[1..]);
      assert a == [a[0]] + a[1..] && b == [b[0]] + b[1..];
    }
  }

  function Elements<T>(s: seq<T>): set<T> {
    set x | x in s
  }

  predicate StrictlySorted(s: seq<Bytes>) {
    forall i, j :: 0 <= i < j < |s| ==> Less(s[i], s[j])
  }

  /** m is the first of s in sorted order. */
  ghost predicate IsLeast(m: Bytes, s: set<Bytes>) {
    m in s && forall x :: x in s && x != m ==> Less(m, x)
  }

  lemma LeastIsUnique(m: Bytes, m': Bytes, s: set<Bytes>)
    requires IsLeast(m, s) && IsLeast(m', s)
    ensures m == m'
  {
    if m != m' {
      LessIsTransitive(m, m', m);
      LessIsIrreflexive(m);
    }
  }

  lemma {:induction false} LeastExists(s: set<Bytes>)
    requires s != {}
    ensures exists m :: IsLeast(m, s)
    decreases |s|
  {
    var x :| x in s;
    var rest := s - {x};
    if rest == {} {
      assert forall y :: y in s && y != x ==> y in rest;
      assert IsLeast(x, s);
    } else {
      LeastExists(rest);
      var m :| IsLeast(m, rest);
      LessIsTotal(x, m);
      if Less(x, m) {
        forall y | y in s && y != x ensures Less(x, y) {
          if y != m {
            LessIsTransitive(x, m, y);
          }
        }
        assert IsLeast(x, s);
      } else {
        assert IsLeast(m, s);
      }
    }
  }

  /** The first element in sorted order, if there is one. */
  ghost function FirstOf(s: set<Bytes>): (r: Option<Bytes>)
    ensures r.None? <==> s == {}
    ensures r.Some? ==> IsLeast(r.value, s)
  {
    if s == {} then None
    else
      LeastExists(s);
      var m :| IsLeast(m, s);
      Some(m)
  }

  lemma FirstOfIs(s: set<Bytes>, m: Bytes)
    requires IsLeast(m, s)
    ensures FirstOf(s) == Some(m)
  {
    LeastIsUnique(m, FirstOf(s).value, s);
  }

  /** Put x at its place in a sorted sequence. */
  function Insert(x: Bytes, s: seq<Bytes>): (r: seq<Bytes>)
    requires StrictlySorted(s) && x !in Elements(s)
    ensures StrictlySorted(r)
    ensures Elements(r) == Elements(s) + {x}
    ensures |r| == |s| + 1
  {
    if s == [] then [x]
    else
      LessIsTotal(x, s[0]);
      if Less(x, s[0]) then
        assert forall j :: 1 <= j < |s| && Less(s[0], s[j]) ==> Less(x, s[j]) by {
          forall j | 1 <= j < |s| && Less(s[0], s[j]) ensures Less(x, s[j]) {
            LessIsTransitive(x, s[0], s[j]);
          }
        }
        [x] + s
      else
        var t := Insert(x, s[1..]);
        assert forall j :: 0 <= j < |t| ==> Less(s[0], t[j]) by {
          forall j | 0 <= j < |t| ensures Less(s[0], t[j]) {
            assert t[j] in Elements(t);
            assert t[j] == x || t[j] in s[1..];
          }
        }
        assert s == [s[0]] + s[1..];
        assert ([s[0]] + t)[1..] == t;
        [s[0]] + t
  }

  /** The elements of s in sorted order. */
  ghost function Sorted(s: set<Bytes>): (r: seq<Bytes>)
    ensures StrictlySorted(r) && Elements(r) == s && |r| == |s|
    decreases |s|
  {
    if s == {} then []
    else
      var x :| x in s;
      Insert(x, Sorted(s - {x}))
  }

  /** There is only one sorted order: a strictly sorted sequence is determined by its elements. */
  lemma {:induction false} SortedIsUnique(a: seq<Bytes>, b: seq<Bytes>)
    requires StrictlySorted(a) && StrictlySorted(b)
    requires Elements(a) == Elements(b)
    ensures a == b
  {
    assert a != [] ==> a[0] in Elements(a);
    assert b != [] ==> b[0] in Elements(b);
    if a != [] && b != [] {
      HeadIsLeast(a);
      HeadIsLeast(b);
      LeastIsUnique(a[0], b[0], Elements(a));
      TailDropsHead(a);
      TailDropsHead(b);
      SortedIsUnique(a[1..], b[1..]);
      assert a == [a[0]] + a[1..] && b == [b[0]] + b[1..];
    }
  }

  lemma HeadIsLeast(a: seq<Bytes>)
    requires StrictlySorted(a) && a != []
    ensures IsLeast(a[0], Elements(a))
  {
  }

  lemma TailDropsHead(a: seq<Bytes>)
    requires StrictlySorted(a) && a != []
    ensures StrictlySorted(a[1..]) && Elements(a[1..]) == Elements(a) - {a[0]}
  {
    LessIsIrreflexive(a[0]);
    forall x | x in Elements(a) - {a[0]} ensures x in Elements(a[1..]) {
      var i :| 0 <= i < |a| && a[i] == x;
      assert a[1..][i - 1] == x;
    }
  }

  /** `sorted(s)`: the elements of a set, in order. */
  method SortSet(s: set<Bytes>) returns (r: seq<Bytes>)
    ensures r == Sorted(s)
  {
    r := [];
    var rest := s;
    while rest != {}
      invariant rest <= s
      invariant StrictlySorted(r) && Elements(r) == s - rest
      decreases |rest|
    {
      var x :| x in rest;
      r := Insert(x, r);
      rest := rest - {x};
    }
    SortedIsUnique(r, Sorted(s));
  }
}
