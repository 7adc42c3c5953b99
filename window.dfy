/**
 * The trailing-window view of `Stat.build_eps_data(now, interval)`: for each
 * speed key, the sum of its buckets over the seconds `int(now) - interval`
 * up to but excluding `int(now)`.
 */
module Window {
  import opened Sorting
  import opened Counters

  /** `int(now)` on a float: truncation toward zero. */
  function Trunc(now: real): (n: int)
    ensures 0.0 <= now ==> n as real <= now < n as real + 1.0
    ensures now < 0.0 ==> n as real - 1.0 < now <= n as real
  {
    if now >= 0.0 then now.Floor else 0 - (0.0 - now).Floor
  }

  /** The speed keys as a set. */
  ghost function KeySet(speedKeys: seq<string>): set<string>
  {
    set k | k in speedKeys
  }

  /** The keys of `build_eps_data`'s result, in the order the dict received them. */
  ghost function EpsKeys(speedKeys: seq<string>, interval: int): seq<string>
  {
    if interval > 0 then SortedKeys(KeySet(speedKeys)) else []
  }

  /**
   * The values of `build_eps_data(now, interval)` with `nowInt == int(now)`.
   * A key listed n times in `speed_keys` is visited n times per second, so it
   * collects its window sum n times.
   */
  function EpsValues(moment: map<int, map<string, int>>, speedKeys: seq<string>, nowInt: int, interval: int): map<string, int>
  {
    if interval > 0 then
      map k | k in speedKeys :: multiset(speedKeys)[k] * RangeSum(moment, k, nowInt - interval, nowInt)
    else map[]
  }

  /**
   * What `build_eps_data` holds for key `k` after summing the seconds `lo`
   * up to `ts` in full and visiting the second `ts` `c` times.
   */
  ghost function Accum(moment: map<int, map<string, int>>, speedKeys: seq<string>, k: string, lo: int, ts: int, c: nat): int
  {
    multiset(speedKeys)[k] * RangeSum(moment, k, lo, ts) + c * BucketValue(moment, ts, k)
  }

  /** The inner loop of `build_eps_data` over the keys `s` at second `ts`: each visit adds the key's bucket. */
  ghost function VisitSecond(eps: map<string, int>, moment: map<int, map<string, int>>, ts: int, s: seq<string>): map<string, int>
    decreases |s|
  {
    if |s| == 0 then eps
    else
      var p := VisitSecond(eps, moment, ts, s[..|s| - 1]);
      var k := s[|s| - 1];
      p[k := Get(p, k) + BucketValue(moment, ts, k)]
  }

  lemma VisitSecondSnoc(eps: map<string, int>, moment: map<int, map<string, int>>, ts: int, s: seq<string>, i: nat)
    requires i < |s|
    ensures VisitSecond(eps, moment, ts, s[..i + 1])
         == VisitSecond(eps, moment, ts, s[..i])[s[i] := Get(VisitSecond(eps, moment, ts, s[..i]), s[i]) + BucketValue(moment, ts, s[i])]
  {
    assert s[..i + 1][..i] == s[..i];
  }

  /** A pass adds each key's bucket once per occurrence of the key. */
  lemma {:induction false} VisitSecondValues(eps: map<string, int>, moment: map<int, map<string, int>>, ts: int, s: seq<string>)
    ensures forall k :: k in VisitSecond(eps, moment, ts, s) <==> k in eps || k in s
    ensures forall k :: Get(VisitSecond(eps, moment, ts, s), k) == Get(eps, k) + multiset(s)[k] * BucketValue(moment, ts, k)
    decreases |s|
  {
    if |s| > 0 {
      var n := |s| - 1;
      VisitSecondValues(eps, moment, ts, s[..n]);
      assert s == s[..n] + [s[n]];
      assert multiset(s) == multiset(s[..n]) + multiset{s[n]};
      forall k ensures Get(VisitSecond(eps, moment, ts, s), k) == Get(eps, k) + multiset(s)[k] * BucketValue(moment, ts, k) {
        var c := multiset(s[..n])[k];
        var b := BucketValue(moment, ts, k);
        if k == s[n] {
          assert (c + 1) * b == c * b + b;
        }
      }
    }
  }

  /** A full pass over the speed keys moves every window sum on by one second. */
  lemma VisitSecondAdvances(eps: map<string, int>, moment: map<int, map<string, int>>, speedKeys: seq<string>, sorted: seq<string>, lo: int, ts: int)
    requires multiset(sorted) == multiset(speedKeys)
    requires (ts == lo && eps == map[]) || (lo < ts && forall k :: k in eps <==> k in speedKeys)
    requires forall k :: k in eps ==> eps[k] == Accum(moment, speedKeys, k, lo, ts, 0)
    ensures forall k :: k in VisitSecond(eps, moment, ts, sorted) <==> k in speedKeys
    ensures forall k :: k in VisitSecond(eps, moment, ts, sorted) ==>
              VisitSecond(eps, moment, ts, sorted)[k] == Accum(moment, speedKeys, k, lo, ts + 1, 0)
  {
    VisitSecondValues(eps, moment, ts, sorted);
    var r := VisitSecond(eps, moment, ts, sorted);
    forall k ensures k in r <==> k in speedKeys {
      assert k in sorted <==> k in multiset(sorted);
      assert k in speedKeys <==> k in multiset(speedKeys);
    }
    forall k | k in r ensures r[k] == Accum(moment, speedKeys, k, lo, ts + 1, 0) {
      AccumNextSecond(moment, speedKeys, k, lo, ts);
      assert Get(eps, k) == Accum(moment, speedKeys, k, lo, ts, 0);
    }
  }

  lemma AccumNextSecond(moment: map<int, map<string, int>>, speedKeys: seq<string>, k: string, lo: int, ts: int)
    requires lo <= ts
    ensures Accum(moment, speedKeys, k, lo, ts, multiset(speedKeys)[k]) == Accum(moment, speedKeys, k, lo, ts + 1, 0)
  {
    var m := multiset(speedKeys)[k];
    assert m * RangeSum(moment, k, lo, ts) + m * BucketValue(moment, ts, k)
        == m * (RangeSum(moment, k, lo, ts) + BucketValue(moment, ts, k));
  }

  /** A map that holds the full window sum of every speed key, and nothing else, is the rate data. */
  lemma AccumComplete(eps: map<string, int>, moment: map<int, map<string, int>>, speedKeys: seq<string>, nowInt: int, interval: int)
    requires interval > 0
    requires forall k :: k in eps <==> k in speedKeys
    requires forall k :: k in eps ==> eps[k] == Accum(moment, speedKeys, k, nowInt - interval, nowInt, 0)
    ensures eps == EpsValues(moment, speedKeys, nowInt, interval)
  {
    var e := EpsValues(moment, speedKeys, nowInt, interval);
    assert eps.Keys == e.Keys;
    forall k | k in eps ensures eps[k] == e[k] {
    }
  }

  /** With a positive interval every speed key has an entry, holding its window sum once per listing. */
  lemma EpsValuesDomain(moment: map<int, map<string, int>>, speedKeys: seq<string>, nowInt: int, interval: int)
    ensures forall k :: k in EpsValues(moment, speedKeys, nowInt, interval) <==> interval > 0 && k in speedKeys
    ensures forall k :: k in EpsValues(moment, speedKeys, nowInt, interval) ==>
              EpsValues(moment, speedKeys, nowInt, interval)[k]
                == multiset(speedKeys)[k] * RangeSum(moment, k, nowInt - interval, nowInt)
  {
  }

  /** Only the buckets of the window's seconds matter; the current second is not one of them. */
  lemma EpsFrame(m1: map<int, map<string, int>>, m2: map<int, map<string, int>>, speedKeys: seq<string>, nowInt: int, interval: int)
    requires forall t, k :: nowInt - interval <= t < nowInt ==> BucketValue(m1, t, k) == BucketValue(m2, t, k)
    ensures EpsValues(m1, speedKeys, nowInt, interval) == EpsValues(m2, speedKeys, nowInt, interval)
  {
    forall k | k in speedKeys
      ensures RangeSum(m1, k, nowInt - interval, nowInt) == RangeSum(m2, k, nowInt - interval, nowInt)
    {
      RangeFrame(m1, m2, k, nowInt - interval, nowInt);
    }
  }

  /** The zeros that reading the rates stores into the buckets change no later rate. */
  lemma FillWindowKeepsRates(moment: map<int, map<string, int>>, keys: seq<string>, lo: int, hi: int,
                             speedKeys: seq<string>, nowInt: int, interval: int)
    ensures EpsValues(FillWindow(moment, keys, lo, hi), speedKeys, nowInt, interval)
         == EpsValues(moment, speedKeys, nowInt, interval)
  {
    FillWindowReads(moment, keys, lo, hi);
    EpsFrame(FillWindow(moment, keys, lo, hi), moment, speedKeys, nowInt, interval);
  }

  /** An increment made during the current second does not show in the rates of that second. */
  lemma EpsExcludesCurrentSecond(s: Store, speedKeys: seq<string>, nowInt: int, interval: int, key: string, count: int)
    ensures EpsValues(Counters.Inc(s, nowInt, key, count).moment, speedKeys, nowInt, interval)
         == EpsValues(s.moment, speedKeys, nowInt, interval)
  {
    EpsFrame(Counters.Inc(s, nowInt, key, count).moment, s.moment, speedKeys, nowInt, interval);
  }

  /** An increment made during one of the window's seconds adds to the window sum of its key. */
  lemma WindowSumSeesIncrement(s: Store, lo: int, hi: int, t: int, key: string, count: int)
    requires lo <= t < hi
    ensures RangeSum(Counters.Inc(s, t, key, count).moment, key, lo, hi) == RangeSum(s.moment, key, lo, hi) + count
  {
    var r := Counters.Inc(s, t, key, count);
    assert BucketValue(r.moment, t, key) == BucketValue(s.moment, t, key) + count;
    assert forall u :: u != t ==> BucketValue(r.moment, u, key) == BucketValue(s.moment, u, key);
    RangePointUpdate(s.moment, r.moment, key, lo, hi, t, count);
  }

  lemma Distribute(m: int, a: int, b: int)
    ensures m * (a + b) == m * a + m * b
  {
  }

  /** An increment made during one of the window's seconds shows in full, once per listing of its key. */
  lemma EpsSeesWindowIncrement(s: Store, speedKeys: seq<string>, nowInt: int, interval: int, t: int, key: string, count: int)
    requires nowInt - interval <= t < nowInt
    requires key in speedKeys
    ensures var after := EpsValues(Counters.Inc(s, t, key, count).moment, speedKeys, nowInt, interval);
            after[key] == EpsValues(s.moment, speedKeys, nowInt, interval)[key] + multiset(speedKeys)[key] * count
  {
    var r := Counters.Inc(s, t, key, count);
    WindowSumSeesIncrement(s, nowInt - interval, nowInt, t, key, count);
    Distribute(multiset(speedKeys)[key], RangeSum(s.moment, key, nowInt - interval, nowInt), count);
  }

  /** With a window wide enough to hold every bucket, a key's window sum is its total. */
  lemma EpsCoveringWindowIsTotal(s: Store, speedKeys: seq<string>, nowInt: int, interval: int, k: string)
    requires Consistent(s)
    requires interval > 0 && Covers(s.moment, nowInt - interval, nowInt)
    requires k in speedKeys
    ensures EpsValues(s.moment, speedKeys, nowInt, interval)[k] == multiset(speedKeys)[k] * Get(s.total, k)
  {
    BucketSumCover(s.moment, k, nowInt - interval, nowInt);
  }

  /** Every second's bucket holds no negative count. */
  ghost predicate NonNegative(moment: map<int, map<string, int>>)
  {
    forall t, k :: BucketValue(moment, t, k) >= 0
  }

  lemma {:induction false} RangeSumNonNegative(moment: map<int, map<string, int>>, k: string, lo: int, hi: int)
    requires NonNegative(moment)
    ensures RangeSum(moment, k, lo, hi) >= 0
    decreases hi - lo
  {
    if lo < hi {
      RangeSumNonNegative(moment, k, lo, hi - 1);
      assert BucketValue(moment, hi - 1, k) >= 0;
    }
  }

  /** Rates are never negative when no increment was. */
  lemma EpsNonNegative(moment: map<int, map<string, int>>, speedKeys: seq<string>, nowInt: int, interval: int)
    requires NonNegative(moment)
    ensures forall k :: k in EpsValues(moment, speedKeys, nowInt, interval)
                    ==> EpsValues(moment, speedKeys, nowInt, interval)[k] >= 0
  {
    forall k | k in EpsValues(moment, speedKeys, nowInt, interval)
      ensures EpsValues(moment, speedKeys, nowInt, interval)[k] >= 0
    {
      RangeSumNonNegative(moment, k, nowInt - interval, nowInt);
    }
  }
}
