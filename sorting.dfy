/**
 * Python's `sorted`. The builtin is a stable sort, and a stable sort's output
 * is determined by its input and ordering, so a stable insertion sort stands
 * for it. Also the ascending enumeration of a set of keys, which is what
 * `sorted(list(d.keys()))` yields for a dict `d`.
 */
module Sorting {
  import opened Strings

  /** `leq` orders every pair and is transitive (ties allowed). */
  ghost predicate TotalPreorder<T(!new)>(leq: (T, T) -> bool)
  {
    && (forall a, b :: leq(a, b) || leq(b, a))
    && (forall a, b, c :: leq(a, b) && leq(b, c) ==> leq(a, c))
  }

  ghost predicate SortedBy<T>(leq: (T, T) -> bool, s: seq<T>)
  {
    forall i, j :: 0 <= i < j < |s| ==> leq(s[i], s[j])
  }

  /** Places `x` before the first element it does not follow. */
  function Insert<T>(x: T, s: seq<T>, leq: (T, T) -> bool): seq<T>
  {
    if |s| == 0 || leq(x, s[0]) then [x] + s else [s[0]] + Insert(x, s[1..], leq)
  }

  function InsertionSort<T>(s: seq<T>, leq: (T, T) -> bool): seq<T>
  {
    if |s| == 0 then [] else Insert(s[0], InsertionSort(s[1..], leq), leq)
  }

  /** The elements of `s` that tie with `x`, in their order in `s`. */
  ghost function Ties<T>(s: seq<T>, leq: (T, T) -> bool, x: T): seq<T>
  {
    if |s| == 0 then []
    else (if leq(x, s[0]) && leq(s[0], x) then [s[0]] else []) + Ties(s[1..], leq, x)
  }

  lemma {:induction false} InsertPermutes<T>(x: T, s: seq<T>, leq: (T, T) -> bool)
    ensures multiset(Insert(x, s, leq)) == multiset(s) + multiset{x}
  {
    if |s| > 0 && !leq(x, s[0]) {
      InsertPermutes(x, s[1..], leq);
      assert s == [s[0]] + s[1..];
    }
  }

  lemma {:induction false} InsertSorted<T(!new)>(x: T, s: seq<T>, leq: (T, T) -> bool)
    requires TotalPreorder(leq) && SortedBy(leq, s)
    ensures SortedBy(leq, Insert(x, s, leq))
  {
    if |s| > 0 && !leq(x, s[0]) {
      var rest := Insert(x, s[1..], leq);
      InsertSorted(x, s[1..], leq);
      InsertPermutes(x, s[1..], leq);
      forall j | 0 <= j < |rest|
        ensures leq(s[0], rest[j])
      {
        assert rest[j] in multiset(rest);
        if rest[j] != x {
          assert rest[j] in multiset(s[1..]);
          assert rest[j] in s[1..];
          var i :| 0 <= i < |s[1..]| && s[1..][i] == rest[j];
          assert s[i + 1] == rest[j];
        }
      }
      assert Insert(x, s, leq) == [s[0]] + rest;
    }
  }

  /** `InsertionSort` returns a rearrangement of its input ... */
  lemma {:induction false} SortPermutes<T>(s: seq<T>, leq: (T, T) -> bool)
    ensures multiset(InsertionSort(s, leq)) == multiset(s)
  {
    if |s| > 0 {
      SortPermutes(s[1..], leq);
      InsertPermutes(s[0], InsertionSort(s[1..], leq), leq);
      assert s == [s[0]] + s[1..];
    }
  }

  /** ... that is in order ... */
  lemma {:induction false} SortSorted<T(!new)>(s: seq<T>, leq: (T, T) -> bool)
    requires TotalPreorder(leq)
    ensures SortedBy(leq, InsertionSort(s, leq))
  {
    if |s| > 0 {
      SortSorted(s[1..], leq);
      InsertSorted(s[0], InsertionSort(s[1..], leq), leq);
    }
  }

  lemma {:induction false} InsertStable<T(!new)>(y: T, s: seq<T>, leq: (T, T) -> bool, x: T)
    requires TotalPreorder(leq)
    ensures Ties(Insert(y, s, leq), leq, x)
         == (if leq(x, y) && leq(y, x) then [y] else []) + Ties(s, leq, x)
  {
    var b := if leq(x, y) && leq(y, x) then [y] else [];
    if |s| == 0 || leq(y, s[0]) {
      assert Insert(y, s, leq) == [y] + s;
      assert ([y] + s)[1..] == s;
    } else {
      var a := if leq(x, s[0]) && leq(s[0], x) then [s[0]] else [];
      var r := Insert(y, s[1..], leq);
      InsertStable(y, s[1..], leq, x);
      assert Insert(y, s, leq) == [s[0]] + r;
      assert ([s[0]] + r)[1..] == r;
      assert Ties([s[0]] + r, leq, x) == a + Ties(r, leq, x);
      assert Ties(s, leq, x) == a + Ties(s[1..], leq, x);
      if leq(y, x) && leq(x, s[0]) {
        // s[0] sorts strictly before y, so it cannot tie with x
        assert false;
      }
      assert a == [] || b == [];
      if a == [] {
        assert Ties(Insert(y, s, leq), leq, x) == b + Ties(s[1..], leq, x);
      } else {
        assert Ties(Insert(y, s, leq), leq, x) == a + Ties(s[1..], leq, x);
      }
    }
  }

  /** ... and that keeps tied elements in their input order (stability). */
  lemma {:induction false} SortStable<T(!new)>(s: seq<T>, leq: (T, T) -> bool, x: T)
    requires TotalPreorder(leq)
    ensures Ties(InsertionSort(s, leq), leq, x) == Ties(s, leq, x)
  {
    if |s| > 0 {
      SortStable(s[1..], leq, x);
      InsertStable(s[0], InsertionSort(s[1..], leq), leq, x);
    }
  }

  lemma LexLeqTotalPreorder()
    ensures TotalPreorder(LexLeq)
  {
    forall a, b ensures LexLeq(a, b) || LexLeq(b, a) {
      LexLeqTotal(a, b);
    }
    forall a, b, c | LexLeq(a, b) && LexLeq(b, c) ensures LexLeq(a, c) {
      LexLeqTransitive(a, b, c);
    }
  }

  /** `sorted(xs)` for a list of strings. */
  function SortStrings(s: seq<string>): (r: seq<string>)
    ensures multiset(r) == multiset(s)
    ensures SortedBy(LexLeq, r)
  {
    SortPermutes(s, LexLeq);
    LexLeqTotalPreorder();
    SortSorted(s, LexLeq);
    InsertionSort(s, LexLeq)
  }

  ghost predicate StrictlyAscending(s: seq<string>)
  {
    forall i, j :: 0 <= i < j < |s| ==> LexLeq(s[i], s[j]) && s[i] != s[j]
  }

  ghost predicate Distinct<T>(s: seq<T>)
  {
    forall i, j :: 0 <= i < j < |s| ==> s[i] != s[j]
  }

  lemma LeastKeyStep(x: string, m: string, rest: set<string>)
    requires forall y :: y in rest ==> LexLeq(m, y)
    ensures LexLeq(x, m) ==> forall y :: y in rest + {x} ==> LexLeq(x, y)
    ensures !LexLeq(x, m) ==> forall y :: y in rest + {x} ==> LexLeq(m, y)
  {
    LexLeqReflexive(x);
    LexLeqTotal(x, m);
    forall y | y in rest && LexLeq(x, m) ensures LexLeq(x, y) {
      LexLeqTransitive(x, m, y);
    }
  }

  /** The smallest key of a non-empty set. */
  ghost function LeastKey(s: set<string>): (m: string)
    requires s != {}
    ensures m in s && forall y :: y in s ==> LexLeq(m, y)
    decreases s
  {
    var x :| x in s;
    if s == {x} then
      LexLeqReflexive(x);
      x
    else
      var m := LeastKey(s - {x});
      LeastKeyStep(x, m, s - {x});
      assert s == (s - {x}) + {x};
      if LexLeq(x, m) then x else m
  }

  /** The keys of `s` in ascending order, each once. */
  ghost function SortedKeys(s: set<string>): (r: seq<string>)
    ensures StrictlyAscending(r)
    ensures forall k :: k in r <==> k in s
    decreases s
  {
    if s == {} then []
    else
      var m := LeastKey(s);
      [m] + SortedKeys(s - {m})
  }

  /** Only one strictly ascending sequence holds a given set of keys. */
  lemma {:induction false} AscendingUnique(a: seq<string>, b: seq<string>)
    requires StrictlyAscending(a) && StrictlyAscending(b)
    requires forall k :: k in a <==> k in b
    ensures a == b
  {
    if |a| > 0 {
      assert a[0] in b;
      assert |b| > 0;
      var j :| 0 <= j < |b| && b[j] == a[0];
      assert b[0] in a;
      var i :| 0 <= i < |a| && a[i] == b[0];
      if a[0] != b[0] {
        assert LexLeq(b[0], a[0]);
        assert LexLeq(a[0], b[0]);
        LexLeqAntisymmetric(a[0], b[0]);
      }
      forall k ensures k in a[1..] <==> k in b[1..] {
        if k in a[1..] {
          var p :| 1 <= p < |a| && a[p] == k;
          assert k in b;
        }
        if k in b[1..] {
          var p :| 1 <= p < |b| && b[p] == k;
          assert k in a;
        }
      }
      AscendingUnique(a[1..], b[1..]);
      assert a == [a[0]] + a[1..];
      assert b == [b[0]] + b[1..];
    }
  }

  /** Appending a key that follows every key already listed keeps the list strictly ascending. */
  lemma AppendAscending(keys: seq<string>, sorted: seq<string>, i: nat)
    requires SortedBy(LexLeq, sorted) && i < |sorted|
    requires StrictlyAscending(keys)
    requires forall k :: k in keys ==> k in sorted[..i]
    requires sorted[i] !in keys
    ensures StrictlyAscending(keys + [sorted[i]])
  {
    forall p | 0 <= p < |keys| ensures LexLeq(keys[p], sorted[i]) {
      assert keys[p] in sorted[..i];
      var j :| 0 <= j < i && sorted[..i][j] == keys[p];
      assert sorted[j] == keys[p];
    }
  }

  /** `keys` followed by the elements of `s` it lacks, each at its first occurrence. */
  ghost function AppendNew(keys: seq<string>, s: seq<string>): seq<string>
    decreases |s|
  {
    if |s| == 0 then keys
    else
      var p := AppendNew(keys, s[..|s| - 1]);
      if s[|s| - 1] in p then p else p + [s[|s| - 1]]
  }

  lemma AppendNewSnoc(keys: seq<string>, s: seq<string>, i: nat)
    requires i < |s|
    ensures AppendNew(keys, s[..i + 1])
         == if s[i] in AppendNew(keys, s[..i]) then AppendNew(keys, s[..i]) else AppendNew(keys, s[..i]) + [s[i]]
  {
    assert s[..i + 1][..i] == s[..i];
  }

  lemma {:induction false} AppendNewMembers(keys: seq<string>, s: seq<string>)
    ensures forall k :: k in AppendNew(keys, s) <==> k in keys || k in s
    decreases |s|
  {
    if |s| > 0 {
      var n := |s| - 1;
      AppendNewMembers(keys, s[..n]);
      assert s == s[..n] + [s[n]];
    }
  }

  lemma {:induction false} AppendNewCovered(keys: seq<string>, s: seq<string>)
    requires forall k :: k in s ==> k in keys
    ensures AppendNew(keys, s) == keys
    decreases |s|
  {
    if |s| > 0 {
      var n := |s| - 1;
      assert s[n] in s;
      AppendNewCovered(keys, s[..n]);
    }
  }

  /** The distinct elements of a sorted sequence, in first-occurrence order, ascend strictly. */
  lemma {:induction false} AppendNewAscending(s: seq<string>)
    requires SortedBy(LexLeq, s)
    ensures StrictlyAscending(AppendNew([], s))
    decreases |s|
  {
    if |s| > 0 {
      var n := |s| - 1;
      assert SortedBy(LexLeq, s[..n]);
      AppendNewAscending(s[..n]);
      var p := AppendNew([], s[..n]);
      if s[n] !in p {
        AppendNewMembers([], s[..n]);
        AppendAscending(p, s, n);
      }
    }
  }

  lemma {:induction false} DistinctMultiplicity<T>(s: seq<T>, x: T)
    requires Distinct(s)
    ensures multiset(s)[x] <= 1
  {
    if |s| > 0 {
      DistinctMultiplicity(s[1..], x);
      assert s == [s[0]] + s[1..];
      if s[0] == x {
        assert x !in s[1..];
      }
    }
  }

  lemma TwoOccurrences<T>(s: seq<T>, i: nat, j: nat)
    requires i < j < |s| && s[i] == s[j]
    ensures multiset(s)[s[i]] >= 2
  {
    assert s == s[..i] + [s[i]] + s[i + 1..j] + [s[j]] + s[j + 1..];
  }

  /** Sorting keys that are pairwise different gives them in strictly ascending order. */
  lemma SortStringsDistinct(s: seq<string>)
    requires Distinct(s)
    ensures StrictlyAscending(SortStrings(s))
  {
    var r := SortStrings(s);
    forall i, j | 0 <= i < j < |r| ensures r[i] != r[j] {
      if r[i] == r[j] {
        TwoOccurrences(r, i, j);
        DistinctMultiplicity(s, r[i]);
        assert false;
      }
    }
  }

  /** Sorting a list of distinct keys gives the ascending enumeration of their set. */
  lemma SortStringsOfKeys(listed: seq<string>, keys: set<string>)
    requires Distinct(listed)
    requires forall k :: k in listed <==> k in keys
    ensures SortStrings(listed) == SortedKeys(keys)
  {
    var r := SortStrings(listed);
    SortStringsDistinct(listed);
    forall k ensures k in r <==> k in keys {
      assert k in r <==> k in multiset(r);
      assert k in listed <==> k in multiset(listed);
    }
    AscendingUnique(r, SortedKeys(keys));
  }
}
