/**
 * The counter store of `ioweb.stat.Stat`: cumulative totals per key
 * (`total_counters`) and, per Unix second, what each key gained in that second
 * (`moment_counters`). The invariant that ties them: every key's total is the
 * sum of its per-second buckets, and every key with a total has a bucket
 * entry. The converse does not hold: reading the rates stores 0 in a bucket
 * for a speed key it lacks (`FillWindow`).
 */
module Counters {

  datatype Store = Store(total: map<string, int>, moment: map<int, map<string, int>>)

  /** One call `inc(key, count)` made during second `second`. */
  datatype Event = Event(second: int, key: string, count: int)

  /** Reading a `defaultdict(int)`: an absent key reads as 0. */
  function Get(m: map<string, int>, k: string): int
  {
    if k in m then m[k] else 0
  }

  /** What second `t` added to key `k`; a missing bucket or key counts 0. */
  function BucketValue(moment: map<int, map<string, int>>, t: int, k: string): int
  {
    if t in moment then Get(moment[t], k) else 0
  }

  /** Sum of the buckets of `k` over the seconds of `range(lo, hi)`. */
  function RangeSum(moment: map<int, map<string, int>>, k: string, lo: int, hi: int): int
    decreases hi - lo
  {
    if hi <= lo then 0 else RangeSum(moment, k, lo, hi - 1) + BucketValue(moment, hi - 1, k)
  }

  /** Every bucket's second lies in `[lo, hi)`. */
  ghost predicate Covers(moment: map<int, map<string, int>>, lo: int, hi: int)
  {
    forall t :: t in moment ==> lo <= t < hi
  }

  lemma {:induction false} RangeSplit(moment: map<int, map<string, int>>, k: string, lo: int, mid: int, hi: int)
    requires lo <= mid <= hi
    ensures RangeSum(moment, k, lo, hi) == RangeSum(moment, k, lo, mid) + RangeSum(moment, k, mid, hi)
    decreases hi - mid
  {
    if mid < hi {
      RangeSplit(moment, k, lo, mid, hi - 1);
    }
  }

  /** A window sum sees nothing but the seconds inside the window. */
  lemma {:induction false} RangeFrame(m1: map<int, map<string, int>>, m2: map<int, map<string, int>>, k: string, lo: int, hi: int)
    requires forall t :: lo <= t < hi ==> BucketValue(m1, t, k) == BucketValue(m2, t, k)
    ensures RangeSum(m1, k, lo, hi) == RangeSum(m2, k, lo, hi)
    decreases hi - lo
  {
    if lo < hi {
      RangeFrame(m1, m2, k, lo, hi - 1);
    }
  }

  /** Changing one second by `d` inside the window changes the sum by `d`. */
  lemma RangePointUpdate(m1: map<int, map<string, int>>, m2: map<int, map<string, int>>, k: string, lo: int, hi: int, t: int, d: int)
    requires lo <= t < hi
    requires BucketValue(m2, t, k) == BucketValue(m1, t, k) + d
    requires forall u :: u != t ==> BucketValue(m2, u, k) == BucketValue(m1, u, k)
    ensures RangeSum(m2, k, lo, hi) == RangeSum(m1, k, lo, hi) + d
  {
    RangeSplit(m1, k, lo, t, hi);
    RangeSplit(m1, k, t, t + 1, hi);
    RangeSplit(m2, k, lo, t, hi);
    RangeSplit(m2, k, t, t + 1, hi);
    RangeFrame(m1, m2, k, lo, t);
    RangeFrame(m1, m2, k, t + 1, hi);
  }

  lemma RangeWiden(moment: map<int, map<string, int>>, k: string, a: int, b: int, lo: int, hi: int)
    requires lo <= a <= b <= hi && Covers(moment, a, b)
    ensures RangeSum(moment, k, lo, hi) == RangeSum(moment, k, a, b)
  {
    RangeSplit(moment, k, lo, a, hi);
    RangeSplit(moment, k, a, b, hi);
    RangeFrame(moment, map[], k, lo, a);
    RangeFrame(moment, map[], k, b, hi);
    RangeFrame(map[], map[], k, lo, a);
    RangeFrame(map[], map[], k, b, hi);
    EmptyRangeSum(k, lo, a);
    EmptyRangeSum(k, b, hi);
  }

  lemma {:induction false} EmptyRangeSum(k: string, lo: int, hi: int)
    ensures RangeSum(map[], k, lo, hi) == 0
    decreases hi - lo
  {
    if lo < hi {
      EmptyRangeSum(k, lo, hi - 1);
    }
  }

  /** Any two windows that hold every bucket give every key the same sum. */
  lemma RangeCovering(moment: map<int, map<string, int>>, k: string, a: int, b: int, c: int, d: int)
    requires a <= b && c <= d
    requires Covers(moment, a, b) && Covers(moment, c, d)
    ensures RangeSum(moment, k, a, b) == RangeSum(moment, k, c, d)
  {
    var lo := if a < c then a else c;
    var hi := if b < d then d else b;
    RangeWiden(moment, k, a, b, lo, hi);
    RangeWiden(moment, k, c, d, lo, hi);
  }

  /** Some window that holds every bucket. */
  ghost function Span(moment: map<int, map<string, int>>): (w: (int, int))
    ensures w.0 <= w.1 && Covers(moment, w.0, w.1)
    decreases |moment.Keys|
  {
    if moment == map[] then (0, 0)
    else
      assert exists t :: t in moment.Keys by {
        if forall t :: t !in moment.Keys {
          assert false;
        }
      }
      var t :| t in moment.Keys;
      var rest := moment - {t};
      assert |rest.Keys| < |moment.Keys| by {
        assert rest.Keys == moment.Keys - {t};
      }
      assert forall u :: u in moment ==> u == t || u in rest;
      var w := Span(rest);
      (if t < w.0 then t else w.0, if t + 1 > w.1 then t + 1 else w.1)
  }

  /** The sum of all buckets of key `k`. */
  ghost function BucketSum(moment: map<int, map<string, int>>, k: string): int
  {
    RangeSum(moment, k, Span(moment).0, Span(moment).1)
  }

  lemma BucketSumCover(moment: map<int, map<string, int>>, k: string, a: int, b: int)
    requires a <= b && Covers(moment, a, b)
    ensures BucketSum(moment, k) == RangeSum(moment, k, a, b)
  {
    RangeCovering(moment, k, a, b, Span(moment).0, Span(moment).1);
  }

  /** Each total is the sum of its buckets, and a key with a total has a bucket entry. */
  ghost predicate Consistent(s: Store)
  {
    && (forall k :: Get(s.total, k) == BucketSum(s.moment, k))
    && KeysAgree(s)
  }

  const Empty: Store := Store(map[], map[])

  lemma EmptyConsistent()
    ensures Consistent(Empty)
  {
    forall k ensures Get(Empty.total, k) == BucketSum(Empty.moment, k) {
      EmptyRangeSum(k, Span(Empty.moment).0, Span(Empty.moment).1);
    }
  }

  /**
   * `inc(key, count)` during second `t`: the total of `key` and its bucket for
   * `t` grow by `count`, each created on first use; nothing else changes.
   */
  function Inc(s: Store, t: int, key: string, count: int): (r: Store)
    ensures r.total.Keys == s.total.Keys + {key}
    ensures forall k :: Get(r.total, k) == Get(s.total, k) + (if k == key then count else 0)
    ensures r.moment.Keys == s.moment.Keys + {t}
    ensures r.moment[t].Keys == (if t in s.moment then s.moment[t].Keys else {}) + {key}
    ensures forall u, k :: BucketValue(r.moment, u, k)
                        == BucketValue(s.moment, u, k) + (if u == t && k == key then count else 0)
    ensures forall u :: u in s.moment && u != t ==> r.moment[u] == s.moment[u]
  {
    Store(AddTo(s.total, key, count), s.moment[t := AddTo(Slot(s.moment, t), key, count)])
  }

  /** `m[k] += c` on a `defaultdict(int)`. */
  function AddTo(m: map<string, int>, k: string, c: int): map<string, int>
  {
    m[k := Get(m, k) + c]
  }

  /** `moment_counters.setdefault(t, defaultdict(int))` */
  function Slot(moment: map<int, map<string, int>>, t: int): map<string, int>
  {
    if t in moment then moment[t] else map[]
  }

  lemma AddToCommute(m: map<string, int>, k1: string, c1: int, k2: string, c2: int)
    ensures AddTo(AddTo(m, k1, c1), k2, c2) == AddTo(AddTo(m, k2, c2), k1, c1)
  {
    if k1 != k2 {
      assert AddTo(AddTo(m, k1, c1), k2, c2) == m[k1 := Get(m, k1) + c1][k2 := Get(m, k2) + c2];
      assert AddTo(AddTo(m, k2, c2), k1, c1) == m[k2 := Get(m, k2) + c2][k1 := Get(m, k1) + c1];
    }
  }

  lemma IncBucketSum(s: Store, t: int, key: string, count: int, k: string)
    ensures BucketSum(Inc(s, t, key, count).moment, k)
         == BucketSum(s.moment, k) + (if k == key then count else 0)
  {
    var r := Inc(s, t, key, count);
    var w := Span(s.moment);
    var lo := if t < w.0 then t else w.0;
    var hi := if t + 1 > w.1 then t + 1 else w.1;
    BucketSumCover(s.moment, k, lo, hi);
    BucketSumCover(r.moment, k, lo, hi);
    RangePointUpdate(s.moment, r.moment, k, lo, hi, t, if k == key then count else 0);
  }

  /** A key has a total only if some second has a bucket entry for it. */
  ghost predicate KeysAgree(s: Store)
  {
    forall k :: k in s.total ==> exists t :: t in s.moment && k in s.moment[t]
  }

  lemma IncKeysAgree(s: Store, t: int, key: string, count: int)
    requires KeysAgree(s)
    ensures KeysAgree(Inc(s, t, key, count))
  {
    var r := Inc(s, t, key, count);
    forall k | k in r.total ensures exists u :: u in r.moment && k in r.moment[u] {
      if k == key {
        assert t in r.moment && k in r.moment[t];
      } else {
        var u :| u in s.moment && k in s.moment[u];
        if u == t {
          assert k in r.moment[t];
        } else {
          assert r.moment[u] == s.moment[u];
        }
      }
    }
  }

  /** `inc` keeps the store consistent. */
  lemma IncPreservesConsistent(s: Store, t: int, key: string, count: int)
    requires Consistent(s)
    ensures Consistent(Inc(s, t, key, count))
  {
    var r := Inc(s, t, key, count);
    forall k ensures Get(r.total, k) == BucketSum(r.moment, k) {
      IncBucketSum(s, t, key, count, k);
    }
    IncKeysAgree(s, t, key, count);
  }

  /** Two increments commute: two calls give the same store in either order. */
  lemma IncCommute(s: Store, e1: Event, e2: Event)
    ensures Inc(Inc(s, e1.second, e1.key, e1.count), e2.second, e2.key, e2.count)
         == Inc(Inc(s, e2.second, e2.key, e2.count), e1.second, e1.key, e1.count)
  {
    AddToCommute(s.total, e1.key, e1.count, e2.key, e2.count);
    var m := s.moment;
    if e1.second == e2.second {
      AddToCommute(Slot(m, e1.second), e1.key, e1.count, e2.key, e2.count);
    } else {
      var x1 := AddTo(Slot(m, e1.second), e1.key, e1.count);
      var x2 := AddTo(Slot(m, e2.second), e2.key, e2.count);
      assert Slot(m[e1.second := x1], e2.second) == Slot(m, e2.second);
      assert Slot(m[e2.second := x2], e1.second) == Slot(m, e1.second);
      assert m[e1.second := x1][e2.second := x2] == m[e2.second := x2][e1.second := x1];
    }
  }

  /** The calls of `events`, made one after another. */
  function IncAll(s: Store, events: seq<Event>): Store
    decreases |events|
  {
    if |events| == 0 then s
    else IncAll(Inc(s, events[0].second, events[0].key, events[0].count), events[1..])
  }

  /** The sum of the counts that `events` give key `k`. */
  function KeyCount(events: seq<Event>, k: string): int
  {
    if |events| == 0 then 0
    else (if events[0].key == k then events[0].count else 0) + KeyCount(events[1..], k)
  }

  /** The sum of the counts that `events` give key `k` during second `t`. */
  function KeyCountAt(events: seq<Event>, t: int, k: string): int
  {
    if |events| == 0 then 0
    else (if events[0].key == k && events[0].second == t then events[0].count else 0)
         + KeyCountAt(events[1..], t, k)
  }

  /** After any run of increments, a key's total grew by exactly the counts given to it. */
  lemma {:induction false} IncAllTotal(s: Store, events: seq<Event>, k: string)
    ensures Get(IncAll(s, events).total, k) == Get(s.total, k) + KeyCount(events, k)
    decreases |events|
  {
    if |events| > 0 {
      var e := events[0];
      IncAllTotal(Inc(s, e.second, e.key, e.count), events[1..], k);
    }
  }

  /** ... and each of its buckets by exactly the counts given during that second. */
  lemma {:induction false} IncAllBucket(s: Store, events: seq<Event>, t: int, k: string)
    ensures BucketValue(IncAll(s, events).moment, t, k) == BucketValue(s.moment, t, k) + KeyCountAt(events, t, k)
    decreases |events|
  {
    if |events| > 0 {
      var e := events[0];
      IncAllBucket(Inc(s, e.second, e.key, e.count), events[1..], t, k);
    }
  }

  lemma {:induction false} IncAllConsistent(s: Store, events: seq<Event>)
    requires Consistent(s)
    ensures Consistent(IncAll(s, events))
    decreases |events|
  {
    if |events| > 0 {
      var e := events[0];
      IncPreservesConsistent(s, e.second, e.key, e.count);
      IncAllConsistent(Inc(s, e.second, e.key, e.count), events[1..]);
    }
  }

  /**
   * Reading `bucket[k]` for every `k` in `keys` through a `defaultdict(int)`
   * bucket: an absent key is stored with 0, and no read value changes.
   */
  function FillBucket(b: map<string, int>, keys: seq<string>): (r: map<string, int>)
    ensures forall k :: k in r <==> k in b || k in keys
    ensures forall k :: Get(r, k) == Get(b, k)
  {
    map k | k in b.Keys + (set k | k in keys) :: Get(b, k)
  }

  /**
   * The buckets after `moment_counters[ts][k]` has been read for every second
   * `ts` in `[lo, hi)` and every `k` in `keys`. `moment_counters` is a plain
   * dict, so a second without a bucket raises `KeyError` and gains none.
   */
  function FillWindow(moment: map<int, map<string, int>>, keys: seq<string>, lo: int, hi: int)
    : map<int, map<string, int>>
  {
    map t | t in moment :: if lo <= t < hi then FillBucket(moment[t], keys) else moment[t]
  }

  /**
   * The filled window keeps its seconds and every value a read sees; a bucket
   * gains exactly the keys read in it that it lacked.
   */
  lemma FillWindowReads(moment: map<int, map<string, int>>, keys: seq<string>, lo: int, hi: int)
    ensures FillWindow(moment, keys, lo, hi).Keys == moment.Keys
    ensures forall t, k :: BucketValue(FillWindow(moment, keys, lo, hi), t, k) == BucketValue(moment, t, k)
    ensures forall t, k :: t in moment ==>
      (k in FillWindow(moment, keys, lo, hi)[t] <==> k in moment[t] || (lo <= t < hi && k in keys))
  {
  }

  /** Reading one more second extends the filled window by that second's bucket. */
  lemma FillWindowStep(moment: map<int, map<string, int>>, keys: seq<string>, lo: int, ts: int)
    requires lo <= ts
    ensures ts in moment ==>
      FillWindow(moment, keys, lo, ts + 1) == FillWindow(moment, keys, lo, ts)[ts := FillBucket(moment[ts], keys)]
    ensures ts !in moment ==> FillWindow(moment, keys, lo, ts + 1) == FillWindow(moment, keys, lo, ts)
  {
    var a := FillWindow(moment, keys, lo, ts + 1);
    var b := FillWindow(moment, keys, lo, ts);
    if ts in moment {
      assert a == b[ts := FillBucket(moment[ts], keys)];
    } else {
      assert a == b;
    }
  }

  /** An empty window reads nothing and stores nothing. */
  lemma FillWindowEmpty(moment: map<int, map<string, int>>, keys: seq<string>, lo: int, hi: int)
    requires hi <= lo
    ensures FillWindow(moment, keys, lo, hi) == moment
  {
    var r := FillWindow(moment, keys, lo, hi);
    assert forall t | t in r :: r[t] == moment[t];
  }

  /** Two bucket maps over the same seconds that read alike have the same bucket sums. */
  lemma SameReadsSameSums(m1: map<int, map<string, int>>, m2: map<int, map<string, int>>, k: string)
    requires m1.Keys == m2.Keys
    requires forall t :: BucketValue(m1, t, k) == BucketValue(m2, t, k)
    ensures BucketSum(m1, k) == BucketSum(m2, k)
  {
    var w := Span(m1);
    BucketSumCover(m2, k, w.0, w.1);
    RangeFrame(m1, m2, k, w.0, w.1);
  }

  /** The zeros stored by reading the rates keep the store consistent. */
  lemma FillWindowConsistent(s: Store, keys: seq<string>, lo: int, hi: int)
    requires Consistent(s)
    ensures Consistent(Store(s.total, FillWindow(s.moment, keys, lo, hi)))
  {
    var m := FillWindow(s.moment, keys, lo, hi);
    FillWindowReads(s.moment, keys, lo, hi);
    forall k ensures Get(s.total, k) == BucketSum(m, k) {
      SameReadsSameSums(s.moment, m, k);
    }
    forall k | k in s.total ensures exists t :: t in m && k in m[t] {
      var t :| t in s.moment && k in s.moment[t];
      assert t in m && k in m[t];
    }
  }
}
