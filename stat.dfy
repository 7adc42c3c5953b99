/**
 * The `Stat` object: the counter store that `inc` updates in place, and the
 * builders that read it to render a moment. The clock is a parameter (`now`,
 * what `time.time()` returned); the logging and export threads are not part
 * of this module.
 */
module Stats {
  import opened Wrappers
  import opened Strings
  import opened Sorting
  import opened Counters
  import opened Window
  import opened Summary

  /** The `speed_keys` argument: `None`, a single key, or a list of keys. */
  datatype SpeedKeysArg = NoSpeedKeys | OneSpeedKey(key: string) | SpeedKeyList(keys: seq<string>)

  /** `list(d.keys())`: the keys of a dict, each once, in some order. */
  method KeysOf(m: map<string, int>) returns (ks: seq<string>)
    ensures Distinct(ks)
    ensures forall k :: k in ks <==> k in m
  {
    ks := [];
    var todo := m.Keys;
    while todo != {}
      invariant todo <= m.Keys
      invariant Distinct(ks)
      invariant forall k :: k in ks <==> k in m && k !in todo
      decreases todo
    {
      var k :| k in todo;
      ks := ks + [k];
      todo := todo - {k};
    }
  }

  /**
   * `for key in sorted_keys: eps[key] += bucket(ts, key)` on a dict that
   * remembers the order in which it received its keys.
   */
  method VisitKeys(moment: map<int, map<string, int>>, ts: int, sorted: seq<string>,
                   keys0: seq<string>, eps0: map<string, int>)
    returns (keys: seq<string>, eps: map<string, int>)
    requires forall k :: k in eps0 <==> k in keys0
    ensures eps == VisitSecond(eps0, moment, ts, sorted)
    ensures keys == AppendNew(keys0, sorted)
    ensures forall k :: k in eps <==> k in keys
  {
    keys, eps := keys0, eps0;
    var i := 0;
    while i < |sorted|
      invariant 0 <= i <= |sorted|
      invariant eps == VisitSecond(eps0, moment, ts, sorted[..i])
      invariant keys == AppendNew(keys0, sorted[..i])
      invariant forall k :: k in eps <==> k in keys
    {
      var key := sorted[i];
      VisitSecondSnoc(eps0, moment, ts, sorted, i);
      AppendNewSnoc(keys0, sorted, i);
      if key !in eps {
        // a key enters the dict the first time it is visited
        keys := keys + [key];
      }
      eps := eps[key := Get(eps, key) + BucketValue(moment, ts, key)];
      i := i + 1;
    }
    assert sorted[..i] == sorted;
  }

  /**
   * One pass of `build_eps_data`'s inner loop: every speed key, in sorted
   * order, adds its count at second `ts`; a key enters the dict (and `keys`)
   * on its first visit.
   */
  method AddSecond(moment: map<int, map<string, int>>, speedKeys: seq<string>, lo: int, ts: int,
                   keys0: seq<string>, eps0: map<string, int>)
    returns (keys: seq<string>, eps: map<string, int>)
    requires (ts == lo && keys0 == []) || (lo < ts && forall k :: k in keys0 <==> k in speedKeys)
    requires StrictlyAscending(keys0)
    requires forall k :: k in eps0 <==> k in keys0
    requires forall k :: k in eps0 ==> eps0[k] == Accum(moment, speedKeys, k, lo, ts, 0)
    ensures forall k :: k in keys <==> k in speedKeys
    ensures StrictlyAscending(keys)
    ensures forall k :: k in eps <==> k in keys
    ensures forall k :: k in eps ==> eps[k] == Accum(moment, speedKeys, k, lo, ts + 1, 0)
  {
    var sorted := SortStrings(speedKeys);
    keys, eps := VisitKeys(moment, ts, sorted, keys0, eps0);
    if ts == lo {
      assert eps0 == map[];
      AppendNewAscending(sorted);
    } else {
      forall k | k in sorted ensures k in keys0 {
        assert k in multiset(sorted);
      }
      AppendNewCovered(keys0, sorted);
    }
    VisitSecondAdvances(eps0, moment, speedKeys, sorted, lo, ts);
  }

  /** The loop of `build_eps_string`: one `"label: rate"` entry per key, in dict order. */
  method RateEntries(aliases: map<string, string>, keys: seq<string>, eps: map<string, int>) returns (ret: seq<string>)
    requires forall k :: k in keys ==> k in eps
    ensures ret == EpsEntries(aliases, keys, eps)
  {
    var interval := EpsInterval;
    ret := [];
    var i := 0;
    while i < |keys|
      invariant 0 <= i <= |keys|
      invariant ret == EpsEntries(aliases, keys[..i], eps)
    {
      var key := keys[i];
      var val := eps[key];
      var valStr := FormatTenths(val, interval);
      if valStr == "0.0" && val > 0 {
        valStr := "0.0+";
      }
      assert valStr == RateString(val, interval);
      EpsEntriesSnoc(aliases, keys, eps, i);
      ret := ret + [Entry(Label(aliases, key), valStr)];
      i := i + 1;
    }
    assert keys[..i] == keys;
  }

  /** The loop of `build_counter_string`: one `"label: count"` entry per key, in the given order. */
  method CountEntries(aliases: map<string, string>, keys: seq<string>, data: map<string, int>) returns (ret: seq<string>)
    requires forall k :: k in keys ==> k in data
    ensures ret == CounterEntriesOf(aliases, keys, data)
  {
    ret := [];
    var i := 0;
    while i < |keys|
      invariant 0 <= i <= |keys|
      invariant ret == CounterEntriesOf(aliases, keys[..i], data)
    {
      var key := keys[i];
      CounterEntriesSnoc(aliases, keys, data, i);
      ret := ret + [Entry(Label(aliases, key), IntToDecimal(data[key]))];
      i := i + 1;
    }
    assert keys[..i] == keys;
  }

  class Stat {
    const speedKeys: seq<string>
    const keyAliases: map<string, string>
    const loggingFormat: string
    var totalCounters: map<string, int>
    var momentCounters: map<int, map<string, int>>

    ghost function State(): Store
      reads this
    {
      Store(totalCounters, momentCounters)
    }

    /**
     * The store is consistent, and every key a bucket lists has a total or is
     * a speed key (reading the rates stores 0 for a speed key a bucket lacks).
     */
    ghost predicate Valid()
      reads this
    {
      && Consistent(State())
      && forall t, k :: t in momentCounters && k in momentCounters[t] ==> k in totalCounters || k in speedKeys
    }

    /** `Stat(speed_keys, key_aliases, logging_format)`, before any thread starts. */
    constructor (speedKeysArg: SpeedKeysArg := NoSpeedKeys,
                 keyAliasesArg: Option<map<string, string>> := None,
                 loggingFormat: string := "text")
      ensures Valid()
      ensures speedKeysArg.NoSpeedKeys? ==> speedKeys == []
      ensures speedKeysArg.OneSpeedKey? ==> speedKeys == [speedKeysArg.key]
      ensures speedKeysArg.SpeedKeyList? ==> speedKeys == speedKeysArg.keys
      ensures keyAliases == AliasTable(keyAliasesArg)
      ensures this.loggingFormat == loggingFormat
      ensures totalCounters == map[] && momentCounters == map[]
    {
      speedKeys := match speedKeysArg
        case NoSpeedKeys => []
        case OneSpeedKey(k) => [k]
        case SpeedKeyList(ks) => ks;
      var aliases := DefaultKeyAliases;
      if keyAliasesArg.Some? {
        aliases := aliases + keyAliasesArg.value;
      }
      keyAliases := aliases;
      this.loggingFormat := loggingFormat;
      totalCounters := map[];
      momentCounters := map[];
      new;
      EmptyConsistent();
    }

    /** `inc(key, count)` at clock reading `now`. */
    method Inc(now: real, key: string, count: int := 1)
      requires Valid()
      modifies this
      ensures Valid()
      ensures State() == Counters.Inc(old(State()), Trunc(now), key, count)
    {
      var nowInt := Trunc(now);
      var slot := Slot(momentCounters, nowInt);
      momentCounters := momentCounters[nowInt := AddTo(slot, key, count)];
      totalCounters := AddTo(totalCounters, key, count);
      IncPreservesConsistent(old(State()), nowInt, key, count);
    }

    /**
     * The outer loop of `build_eps_data` over the seconds `[lo, hi)`: every
     * speed key collects its buckets, and each bucket read stores 0 for a
     * speed key the bucket lacks.
     */
    method SumWindow(lo: int, hi: int) returns (keys: seq<string>, eps: map<string, int>)
      modifies this
      ensures totalCounters == old(totalCounters)
      ensures momentCounters == FillWindow(old(momentCounters), speedKeys, lo, hi)
      ensures lo >= hi ==> keys == [] && eps == map[]
      ensures lo < hi ==> forall k :: k in keys <==> k in speedKeys
      ensures StrictlyAscending(keys)
      ensures forall k :: k in eps <==> k in keys
      ensures forall k :: k in eps ==> eps[k] == Accum(old(momentCounters), speedKeys, k, lo, hi, 0)
    {
      var moment := momentCounters;
      keys, eps := [], map[];
      var ts := lo;
      while ts < hi
        invariant ts == lo || lo < ts <= hi
        invariant ts == lo ==> keys == [] && eps == map[]
        invariant ts > lo ==> forall k :: k in keys <==> k in speedKeys
        invariant StrictlyAscending(keys)
        invariant forall k :: k in eps <==> k in keys
        invariant forall k :: k in eps ==> eps[k] == Accum(moment, speedKeys, k, lo, ts, 0)
        invariant totalCounters == old(totalCounters)
        invariant momentCounters == FillWindow(moment, speedKeys, lo, ts)
      {
        keys, eps := AddSecond(moment, speedKeys, lo, ts, keys, eps);
        FillWindowStep(moment, speedKeys, lo, ts);
        if ts in momentCounters {
          assert momentCounters[ts] == moment[ts];
          // `moment_counters[ts][key]` on a `defaultdict(int)` bucket stores 0 for an absent key
          momentCounters := momentCounters[ts := FillBucket(momentCounters[ts], speedKeys)];
        }
        ts := ts + 1;
      }
      if lo >= hi {
        FillWindowEmpty(moment, speedKeys, lo, lo);
        FillWindowEmpty(moment, speedKeys, lo, hi);
      }
    }

    /**
     * `build_eps_data(now, interval)`: `keys` is the order in which the result
     * dict received its keys, `eps` its contents. Reading a bucket that lacks
     * a speed key stores 0 for that key in the bucket.
     */
    method BuildEpsData(now: real, interval: int) returns (keys: seq<string>, eps: map<string, int>)
      requires Valid()
      modifies this
      ensures Valid()
      ensures totalCounters == old(totalCounters)
      ensures momentCounters == FillWindow(old(momentCounters), speedKeys, Trunc(now) - interval, Trunc(now))
      ensures keys == EpsKeys(speedKeys, interval)
      ensures eps == EpsValues(old(momentCounters), speedKeys, Trunc(now), interval)
    {
      var nowInt := Trunc(now);
      var lo := nowInt - interval;
      keys, eps := SumWindow(lo, nowInt);
      if interval > 0 {
        AscendingUnique(keys, SortedKeys(KeySet(speedKeys)));
        AccumComplete(eps, old(momentCounters), speedKeys, nowInt, interval);
      }
      FillWindowConsistent(old(State()), speedKeys, lo, nowInt);
      FillWindowReads(old(momentCounters), speedKeys, lo, nowInt);
    }

    /** `build_eps_string(now)`, with the zeros that `build_eps_data` stores. */
    method BuildEpsString(now: real) returns (r: string)
      requires Valid()
      modifies this
      ensures Valid()
      ensures totalCounters == old(totalCounters)
      ensures momentCounters == FillWindow(old(momentCounters), speedKeys, Trunc(now) - EpsInterval, Trunc(now))
      ensures r == EpsString(keyAliases, speedKeys, old(momentCounters), Trunc(now))
    {
      var interval := EpsInterval;
      var keys, eps := BuildEpsData(now, interval);
      EpsKeysInValues(old(momentCounters), speedKeys, Trunc(now), interval);
      var ret := RateEntries(keyAliases, keys, eps);
      ret := SortEntries(ret);
      r := Join(", ", ret);
    }

    /** `build_counter_data(ignore)`; the flag is accepted and has no effect. */
    method BuildCounterData(ignore: bool := true) returns (data: map<string, int>)
      ensures forall k :: k in data <==> k in totalCounters && !IsIgnored(k)
      ensures forall k :: k in data ==> data[k] == totalCounters[k]
      ensures data == CounterData(totalCounters)
    {
      data := map[];
      var todo := totalCounters.Keys;
      while todo != {}
        invariant todo <= totalCounters.Keys
        invariant forall k :: k in data <==> k in totalCounters && k !in todo && !IsIgnored(k)
        invariant forall k :: k in data ==> data[k] == totalCounters[k]
        decreases todo
      {
        var key :| key in todo;
        if !IsIgnored(key) {
          data := data[key := totalCounters[key]];
        }
        todo := todo - {key};
      }
    }

    /** `build_counter_string()` */
    method BuildCounterString() returns (r: string)
      ensures r == CounterString(keyAliases, totalCounters)
    {
      var data := BuildCounterData();
      var listed := KeysOf(data);
      var keys := SortStrings(listed);
      SortStringsOfKeys(listed, data.Keys);
      var ret := CountEntries(keyAliases, keys, data);
      r := Join(", ", ret);
    }

    /**
     * `render_moment(now)`: the JSON form when so configured, the text form
     * otherwise; either way the zeros that `build_eps_data` stores.
     */
    method RenderMoment(now: real) returns (r: Rendered)
      requires Valid()
      modifies this
      ensures Valid()
      ensures totalCounters == old(totalCounters)
      ensures momentCounters == FillWindow(old(momentCounters), speedKeys, Trunc(now) - EpsInterval, Trunc(now))
      ensures loggingFormat == "json" ==>
        r == Json(EpsKeys(speedKeys, EpsInterval),
                  EpsValues(old(momentCounters), speedKeys, Trunc(now), EpsInterval),
                  CounterData(totalCounters))
      ensures loggingFormat != "json" ==>
        r == Text(TextLine(EpsString(keyAliases, speedKeys, old(momentCounters), Trunc(now)),
                           CounterString(keyAliases, totalCounters)))
    {
      if loggingFormat == "json" {
        var keys, eps := BuildEpsData(now, EpsInterval);
        var counter := BuildCounterData();
        r := Json(keys, eps, counter);
      } else {
        var epsStr := BuildEpsString(now);
        var counterStr := BuildCounterString();
        r := Text("EPS: " + epsStr + " | TOTAL: " + counterStr);
      }
    }
  }
}
