/**
 * What `Stat.render_moment` shows: the key alias table, the ignore-prefix
 * filter of the counter summary, the `"label: count"` and `"label: rate"`
 * entries, their ordering, and the text envelope.
 */
module Summary {
  import opened Wrappers
  import opened Strings
  import opened Sorting
  import opened Counters
  import opened Window

  const DefaultKeyAliases: map<string, string> := map[
    "crawler:request-processed" := "req",
    "crawler:request-proxy-processed" := "req-proxy",
    "crawler:request-ok" := "req-ok",
    "crawler:request-retry" := "req-retry",
    "crawler:request-fail" := "req-fail",
    "crawler:request-rejected" := "req-rejected"
  ]

  /** Keys with these prefixes are left out of the counter summary. */
  const IgnorePrefixes: seq<string> := ["http:", "network-error:"]

  /** The window, in seconds, of the rates that the renderer shows. */
  const EpsInterval: int := 30

  /** `key_aliases`: the built-in table updated with the caller's entries. */
  function AliasTable(overrides: Option<map<string, string>>): (aliases: map<string, string>)
    ensures forall k :: k in aliases <==> k in DefaultKeyAliases || (overrides.Some? && k in overrides.value)
    ensures overrides.Some? ==> forall k :: k in overrides.value ==> aliases[k] == overrides.value[k]
    ensures forall k :: k in DefaultKeyAliases && !(overrides.Some? && k in overrides.value)
                    ==> aliases[k] == DefaultKeyAliases[k]
  {
    if overrides.Some? then DefaultKeyAliases + overrides.value else DefaultKeyAliases
  }

  /** `key_aliases.get(key, key)` */
  function Label(aliases: map<string, string>, key: string): string
  {
    if key in aliases then aliases[key] else key
  }

  /** The label of a key: the caller's alias, else the built-in one, else the key itself. */
  lemma LabelPrecedence(overrides: Option<map<string, string>>, key: string)
    ensures Label(AliasTable(overrides), key)
         == if overrides.Some? && key in overrides.value then overrides.value[key]
            else if key in DefaultKeyAliases then DefaultKeyAliases[key]
            else key
  {
  }

  /** `key.startswith(ignore_prefixes)` */
  predicate IsIgnored(key: string)
  {
    exists i :: 0 <= i < |IgnorePrefixes| && IgnorePrefixes[i] <= key
  }

  /** `build_counter_data()`: the totals, less the keys with an ignored prefix. */
  function CounterData(total: map<string, int>): map<string, int>
  {
    map k | k in total && !IsIgnored(k) :: total[k]
  }

  /** `'%s: %s' % (label, value)` */
  function Entry(name: string, value: string): string
  {
    name + ": " + value
  }

  /** The keys of the counter summary, in the order it lists them. */
  ghost function CounterKeys(total: map<string, int>): seq<string>
  {
    SortedKeys(CounterData(total).Keys)
  }

  /** One `"label: count"` entry per key of `keys`. */
  function CounterEntriesOf(aliases: map<string, string>, keys: seq<string>, data: map<string, int>): seq<string>
    requires forall k :: k in keys ==> k in data
  {
    seq(|keys|, i requires 0 <= i < |keys| => Entry(Label(aliases, keys[i]), IntToDecimal(data[keys[i]])))
  }

  lemma CounterEntriesSnoc(aliases: map<string, string>, keys: seq<string>, data: map<string, int>, i: nat)
    requires i < |keys|
    requires forall k :: k in keys ==> k in data
    ensures CounterEntriesOf(aliases, keys[..i + 1], data)
         == CounterEntriesOf(aliases, keys[..i], data) + [Entry(Label(aliases, keys[i]), IntToDecimal(data[keys[i]]))]
  {
    assert keys[i] in keys;
  }

  /** The entries of `build_counter_string()`. */
  ghost function CounterEntries(aliases: map<string, string>, total: map<string, int>): seq<string>
  {
    var data := CounterData(total);
    CounterEntriesOf(aliases, SortedKeys(data.Keys), data)
  }

  /** `build_counter_string()` */
  ghost function CounterString(aliases: map<string, string>, total: map<string, int>): string
  {
    Join(", ", CounterEntries(aliases, total))
  }

  /**
   * The counter summary lists, in ascending key order and once each, exactly
   * the keys that have a total and no ignored prefix, each with its label and
   * a count that reads back as its total.
   */
  lemma CounterSummaryMeaning(aliases: map<string, string>, total: map<string, int>)
    ensures var ks := CounterKeys(total);
            var es := CounterEntries(aliases, total);
            && StrictlyAscending(ks)
            && (forall k :: k in ks <==> k in total && !IsIgnored(k))
            && |es| == |ks|
            && (forall i :: 0 <= i < |ks| ==>
                  es[i] == Entry(Label(aliases, ks[i]), IntToDecimal(total[ks[i]]))
                  && ParseInt(IntToDecimal(total[ks[i]])) == total[ks[i]])
  {
    var ks := CounterKeys(total);
    forall i | 0 <= i < |ks| ensures ks[i] in total && ParseInt(IntToDecimal(total[ks[i]])) == total[ks[i]] {
      assert ks[i] in CounterData(total);
      IntToDecimalInverse(total[ks[i]]);
    }
  }

  /** `round(10 * val / interval)`, ties to even, as `'%.1f'` rounds. */
  function Tenths(val: int, interval: int): int
    requires interval > 0
  {
    var n := 10 * val;
    var q := n / interval;
    var r := n % interval;
    if 2 * r > interval || (2 * r == interval && q % 2 == 1) then q + 1 else q
  }

  /** `'%.1f' % (val / interval)`: a minus sign when the quotient is negative. */
  function FormatTenths(val: int, interval: int): string
    requires interval > 0
  {
    var t := Tenths(val, interval);
    var a: nat := if t < 0 then 0 - t else t;
    (if val < 0 then "-" else "") + NatToDecimal(a / 10) + "." + [DigitChar(a % 10)]
  }

  /** The rate shown for a window sum: a positive sum that would show as `0.0` shows as `0.0+`. */
  function RateString(val: int, interval: int): string
    requires interval > 0
  {
    var s := FormatTenths(val, interval);
    if s == "0.0" && val > 0 then "0.0+" else s
  }

  lemma TenthsZero(val: int, interval: int)
    requires interval > 0
    ensures (Tenths(val, interval) == 0 && val >= 0) <==> (0 <= val && 20 * val <= interval)
  {
    var n := 10 * val;
    if 0 <= val {
      if n < interval {
        assert n / interval == 0 && n % interval == n;
      } else {
        assert n / interval >= 1;
      }
    }
  }

  lemma FormatTenthsLastDigit(val: int, interval: int)
    requires interval > 0
    ensures var s := FormatTenths(val, interval); |s| >= 3 && IsDigit(s[|s| - 1]) && s[|s| - 2] == '.'
  {
  }

  /** How a quotient prints: sign, integer part, a dot and one decimal. */
  lemma ShownZero(sign: string, n: nat, d: nat)
    requires sign == "" || sign == "-"
    requires d < 10
    ensures sign + NatToDecimal(n) + "." + [DigitChar(d)] == "0.0" <==> (sign == "" && n == 0 && d == 0)
  {
    var s := sign + NatToDecimal(n) + "." + [DigitChar(d)];
    if s == "0.0" {
      assert s == NatToDecimal(n) + "." + [DigitChar(d)];
      assert NatToDecimal(n) == s[..|s| - 2];
      ParseNatInverse(n);
      assert s[|s| - 1] == DigitChar(d);
    }
  }

  /** `'%.1f'` shows `0.0` exactly when the quotient is non-negative and rounds to zero. */
  lemma FormatTenthsZero(val: int, interval: int)
    requires interval > 0
    ensures FormatTenths(val, interval) == "0.0" <==> (0 <= val && 20 * val <= interval)
  {
    TenthsZero(val, interval);
    var t := Tenths(val, interval);
    var a: nat := if t < 0 then 0 - t else t;
    ShownZero(if val < 0 then "-" else "", a / 10, a % 10);
  }

  /** `0.0+` marks exactly the positive sums that round to `0.0`. */
  lemma RateMarker(val: int, interval: int)
    requires interval > 0
    ensures RateString(val, interval) == "0.0+" <==> (0 < val && 20 * val <= interval)
  {
    FormatTenthsZero(val, interval);
    FormatTenthsLastDigit(val, interval);
  }

  /** A rate shown as `0.0` means that the window sum is zero. */
  lemma RateZeroMeansNone(val: int, interval: int)
    requires interval > 0
    ensures RateString(val, interval) == "0.0" <==> val == 0
  {
    FormatTenthsZero(val, interval);
  }

  /** `sorted(ret, key=lambda x: x[0])` compares entries by their first character only. */
  predicate FirstCharLeq(a: string, b: string)
  {
    |a| == 0 || (|b| > 0 && a[0] <= b[0])
  }

  lemma FirstCharTotalPreorder()
    ensures TotalPreorder(FirstCharLeq)
  {
  }

  function SortEntries(entries: seq<string>): seq<string>
  {
    InsertionSort(entries, FirstCharLeq)
  }

  /**
   * The rate entries come out ordered by first character only; entries that
   * share a first character keep the order they were produced in.
   */
  lemma SortEntriesOrder(entries: seq<string>)
    ensures SortedBy(FirstCharLeq, SortEntries(entries))
    ensures multiset(SortEntries(entries)) == multiset(entries)
    ensures forall x :: Ties(SortEntries(entries), FirstCharLeq, x) == Ties(entries, FirstCharLeq, x)
  {
    FirstCharTotalPreorder();
    SortSorted(entries, FirstCharLeq);
    SortPermutes(entries, FirstCharLeq);
    forall x ensures Ties(SortEntries(entries), FirstCharLeq, x) == Ties(entries, FirstCharLeq, x) {
      SortStable(entries, FirstCharLeq, x);
    }
  }

  /** The entries `build_eps_string` builds, before sorting, one per key of `keys`. */
  function EpsEntries(aliases: map<string, string>, keys: seq<string>, eps: map<string, int>): seq<string>
    requires forall k :: k in keys ==> k in eps
  {
    seq(|keys|, i requires 0 <= i < |keys| => Entry(Label(aliases, keys[i]), RateString(eps[keys[i]], EpsInterval)))
  }

  lemma EpsEntriesSnoc(aliases: map<string, string>, keys: seq<string>, eps: map<string, int>, i: nat)
    requires i < |keys|
    requires forall k :: k in keys ==> k in eps
    ensures EpsEntries(aliases, keys[..i + 1], eps)
         == EpsEntries(aliases, keys[..i], eps) + [Entry(Label(aliases, keys[i]), RateString(eps[keys[i]], EpsInterval))]
  {
    assert keys[i] in keys;
  }

  lemma EpsKeysInValues(moment: map<int, map<string, int>>, speedKeys: seq<string>, nowInt: int, interval: int)
    ensures forall k :: k in EpsKeys(speedKeys, interval) ==> k in EpsValues(moment, speedKeys, nowInt, interval)
  {
  }

  /** `build_eps_string(now)` with `nowInt == int(now)`. */
  ghost function EpsString(aliases: map<string, string>, speedKeys: seq<string>, moment: map<int, map<string, int>>, nowInt: int): string
  {
    EpsKeysInValues(moment, speedKeys, nowInt, EpsInterval);
    var keys := EpsKeys(speedKeys, EpsInterval);
    var eps := EpsValues(moment, speedKeys, nowInt, EpsInterval);
    Join(", ", SortEntries(EpsEntries(aliases, keys, eps)))
  }

  /** The text form of a moment. */
  function TextLine(epsString: string, counterString: string): string
  {
    "EPS: " + epsString + " | TOTAL: " + counterString
  }

  /** What `render_moment` returns: the text line, or the data that `json.dumps` would serialise. */
  datatype Rendered =
    | Text(line: string)
    | Json(epsKeys: seq<string>, eps: map<string, int>, counter: map<string, int>)

  /**
   * Ignored prefixes only shape the counter summary: such a key keeps its
   * total, and if it is a speed key it keeps its rate.
   */
  lemma IgnoredOnlyInSummary(s: Store, speedKeys: seq<string>, nowInt: int, k: string)
    requires IsIgnored(k) && k in s.total && k in speedKeys
    ensures k !in CounterKeys(s.total)
    ensures k in EpsKeys(speedKeys, EpsInterval)
    ensures EpsValues(s.moment, speedKeys, nowInt, EpsInterval)[k]
         == multiset(speedKeys)[k] * RangeSum(s.moment, k, nowInt - EpsInterval, nowInt)
  {
  }
}
