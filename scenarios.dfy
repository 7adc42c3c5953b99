/**
 * Concrete runs of the model: what the summary line shows for a few small
 * stores.
 */
module Scenarios {
  import opened Wrappers
  import opened Strings
  import opened Sorting
  import opened Counters
  import opened Window
  import opened Summary
  import opened Stats

  lemma SingletonSortedKeys(k: string)
    ensures SortedKeys({k}) == [k]
  {
    AscendingUnique(SortedKeys({k}), [k]);
  }

  lemma NotIgnored(key: string)
    requires |key| > 0 && key[0] == 'c'
    ensures !IsIgnored(key)
  {
    forall i | 0 <= i < |IgnorePrefixes| ensures !(IgnorePrefixes[i] <= key) {
      assert IgnorePrefixes[i][0] != 'c';
    }
  }

  /** A summary holding only five `crawler:request-ok` events reads `req-ok: 5`. */
  lemma ReqOkFive(total: map<string, int>)
    requires CounterData(total) == map["crawler:request-ok" := 5]
    ensures CounterString(DefaultKeyAliases, total) == "req-ok: 5"
  {
    assert CounterData(total).Keys == {"crawler:request-ok"};
    SingletonSortedKeys("crawler:request-ok");
    ReqOkEntry();
  }

  lemma ReqOkEntry()
    ensures CounterEntriesOf(DefaultKeyAliases, ["crawler:request-ok"], map["crawler:request-ok" := 5]) == ["req-ok: 5"]
  {
    assert IntToDecimal(5) == "5";
    assert Label(DefaultKeyAliases, "crawler:request-ok") == "req-ok";
    assert Entry("req-ok", "5") == "req-ok: 5";
  }

  /** Five `crawler:request-ok` events show as `req-ok: 5` under the built-in aliases. */
  lemma CounterStringAlias()
    ensures CounterString(DefaultKeyAliases, Counters.Inc(Empty, 100, "crawler:request-ok", 5).total) == "req-ok: 5"
  {
    var total := Counters.Inc(Empty, 100, "crawler:request-ok", 5).total;
    assert total == map["crawler:request-ok" := 5];
    NotIgnored("crawler:request-ok");
    assert CounterData(total) == total;
    ReqOkFive(total);
  }

  /** An `http:` key stays out of the counter summary. */
  lemma CounterStringSkipsHttp()
    ensures CounterString(DefaultKeyAliases, map["http:200" := 3, "crawler:request-ok" := 5]) == "req-ok: 5"
  {
    var total := map["http:200" := 3, "crawler:request-ok" := 5];
    assert IsIgnored("http:200") by {
      assert IgnorePrefixes[0] <= "http:200";
    }
    NotIgnored("crawler:request-ok");
    assert CounterData(total) == map["crawler:request-ok" := 5];
    ReqOkFive(total);
  }

  /** 100 events one second ago make a window sum of 100 ... */
  lemma RateWindowExample()
    ensures EpsValues(map[99 := map["crawler:request-ok" := 100]], ["crawler:request-ok"], 100, EpsInterval)
         == map["crawler:request-ok" := 100]
  {
    var m := map[99 := map["crawler:request-ok" := 100]];
    var k := "crawler:request-ok";
    RangeFrame(m, map[], k, 70, 99);
    EmptyRangeSum(k, 70, 99);
    assert RangeSum(m, k, 70, 100) == 100;
    assert multiset([k])[k] == 1;
    var e := EpsValues(m, [k], 100, EpsInterval);
    EpsValuesDomain(m, [k], 100, EpsInterval);
    assert k in e && e[k] == 100;
    assert forall x :: x in e <==> x == k;
  }

  /** ... which shows as a rate of 3.3 per second over the 30-second window. */
  lemma RateStringExample()
    ensures RateString(100, EpsInterval) == "3.3"
  {
    assert Tenths(100, 30) == 33;
    assert NatToDecimal(3) == "3";
    assert DigitChar(3) == '3';
    assert FormatTenths(100, 30) == "3" + "." + "3";
    assert "3" + "." + "3" == "3.3";
  }

  /** A single event in the window shows as `0.0+`, not as `0.0`. */
  lemma RateMarkerExample()
    ensures RateString(1, EpsInterval) == "0.0+"
  {
    RateMarker(1, EpsInterval);
  }

  /**
   * Speed key `a`, one `b` event in second 99, rates read at second 100: the
   * bucket of second 99 gains `a: 0`, and `a` still has no total.
   */
  lemma RatesStoreZero()
    ensures FillWindow(map[99 := map["b" := 1]], ["a"], 70, 100) == map[99 := map["b" := 1, "a" := 0]]
  {
    var r := FillWindow(map[99 := map["b" := 1]], ["a"], 70, 100);
    var bucket := FillBucket(map["b" := 1], ["a"]);
    assert r.Keys == {99};
    assert r[99] == bucket;
    assert bucket.Keys == {"b", "a"};
    assert bucket["b"] == Get(map["b" := 1], "b") == 1;
    assert bucket["a"] == Get(map["b" := 1], "a") == 0;
    assert bucket == map["b" := 1, "a" := 0];
  }

  /** With no speed keys the rate part is empty: `EPS:  | TOTAL: req-ok: 5`. */
  method RenderExample() returns (r: Rendered)
    ensures r == Text("EPS:  | TOTAL: req-ok: 5")
  {
    var st := new Stat();
    st.Inc(100.5, "crawler:request-ok", 5);
    assert st.totalCounters == map["crawler:request-ok" := 5];
    NotIgnored("crawler:request-ok");
    assert CounterData(st.totalCounters) == st.totalCounters;
    ReqOkFive(st.totalCounters);
    assert st.loggingFormat != "json";
    assert EpsKeys(st.speedKeys, EpsInterval) == [];
    r := st.RenderMoment(101.0);
    assert EpsString(st.keyAliases, st.speedKeys, st.momentCounters, 101) == "";
    EmptyRatesLine();
  }

  lemma EmptyRatesLine()
    ensures TextLine("", "req-ok: 5") == "EPS:  | TOTAL: req-ok: 5"
  {
    assert "EPS: " + "" == "EPS: ";
  }
}
