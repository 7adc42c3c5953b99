/**
 * The export side of `Stat`: the delta of the totals between two export
 * cycles, the influx driver's observable effects (the database it creates
 * and the points it writes), and the crawler driver's required tags. The
 * client library, the network and the retry loop are not part of this model.
 */
module Export {
  import opened Wrappers
  import opened Counters
  import opened Stats

  /** Python truthiness of `prev_counters`: `None` and `{}` are both false. */
  predicate HasPrevious(prev: Option<map<string, int>>)
  {
    prev.Some? && prev.value != map[]
  }

  /** The previous snapshot, read with `.get(x, 0)`; a missing one reads as all zeros. */
  function PrevCounts(prev: Option<map<string, int>>): map<string, int>
  {
    if prev.Some? then prev.value else map[]
  }

  /**
   * `delta_counters` of one export cycle. Whatever the previous snapshot,
   * adding the delta to it gives back the current one, key by key.
   */
  function Delta(prev: Option<map<string, int>>, cur: map<string, int>): (delta: map<string, int>)
    ensures delta.Keys == cur.Keys
    ensures forall k :: k in cur ==> Get(PrevCounts(prev), k) + delta[k] == cur[k]
    ensures !HasPrevious(prev) ==> delta == cur
  {
    if HasPrevious(prev) then map k | k in cur :: cur[k] - Get(prev.value, k) else cur
  }

  /** The deltas that successive export cycles write, starting from `prev`. */
  function ExportDeltas(prev: Option<map<string, int>>, snapshots: seq<map<string, int>>): (ds: seq<map<string, int>>)
    ensures |ds| == |snapshots|
    decreases |snapshots|
  {
    if |snapshots| == 0 then []
    else [Delta(prev, snapshots[0])] + ExportDeltas(Some(snapshots[0]), snapshots[1..])
  }

  /** The sum over `ds` of the value of `k`, missing entries counting 0. */
  function DeltaSum(ds: seq<map<string, int>>, k: string): int
    decreases |ds|
  {
    if |ds| == 0 then 0 else Get(ds[0], k) + DeltaSum(ds[1..], k)
  }

  /** A key, once in a snapshot, stays in every later one (totals never lose a key). */
  ghost predicate KeepsKey(prev: Option<map<string, int>>, snapshots: seq<map<string, int>>, k: string)
  {
    && (|snapshots| > 0 && k in PrevCounts(prev) ==> k in snapshots[0])
    && (forall i :: 0 <= i < |snapshots| - 1 && k in snapshots[i] ==> k in snapshots[i + 1])
  }

  /**
   * The deltas telescope: the previous count plus every delta written since
   * is the latest snapshot's count.
   */
  lemma {:induction false} ExportTelescopes(prev: Option<map<string, int>>, snapshots: seq<map<string, int>>, k: string)
    requires |snapshots| > 0
    requires KeepsKey(prev, snapshots, k)
    ensures Get(PrevCounts(prev), k) + DeltaSum(ExportDeltas(prev, snapshots), k) == Get(snapshots[|snapshots| - 1], k)
    decreases |snapshots|
  {
    var s0 := snapshots[0];
    var ds := ExportDeltas(prev, snapshots);
    assert ds[0] == Delta(prev, s0);
    assert ds[1..] == ExportDeltas(Some(s0), snapshots[1..]);
    if k !in s0 {
      assert k !in PrevCounts(prev);
    }
    assert Get(PrevCounts(prev), k) + Get(ds[0], k) == Get(s0, k);
    if |snapshots| == 1 {
      assert ds[1..] == [];
    } else {
      var rest := snapshots[1..];
      forall i | 0 <= i < |rest| - 1 && k in rest[i] ensures k in rest[i + 1] {
        assert rest[i] == snapshots[i + 1];
      }
      ExportTelescopes(Some(s0), rest, k);
      assert rest[|rest| - 1] == snapshots[|snapshots| - 1];
    }
  }

  /** One exported point: the measurement, its tags and the delta as fields. */
  datatype Point = Point(measurement: string, tags: map<string, string>, fields: map<string, int>)

  /** The errors a driver raises: `IowebConfigError(message)`, or `KeyError(key)` on a missing option. */
  datatype DriverError = ConfigError(message: string) | KeyError(key: string)

  class InfluxdbExportDriver {
    const connectOptions: map<string, string>
    const measurement: string
    const tags: map<string, string>
    var databaseCreated: bool
    /** The `create_database` calls made so far. */
    var createdDatabases: seq<string>
    /** The `write_points` calls made so far, one point each. */
    var written: seq<Point>

    /**
     * The database is created at most once, before any point is written, and
     * every written point carries this driver's measurement and tags and at
     * least one field.
     */
    ghost predicate Valid()
      reads this
    {
      && (databaseCreated ==> "database" in connectOptions && createdDatabases == [connectOptions["database"]])
      && (!databaseCreated ==> createdDatabases == [] && written == [])
      && (forall i :: 0 <= i < |written| ==>
            written[i].fields != map[] && written[i].measurement == measurement && written[i].tags == tags)
    }

    constructor (connectOptions: map<string, string>, tags: map<string, string>, measurement: string := "crawler_stats")
      ensures Valid()
      ensures this.connectOptions == connectOptions && this.tags == tags && this.measurement == measurement
      ensures !databaseCreated && createdDatabases == [] && written == []
    {
      this.connectOptions := connectOptions;
      this.tags := tags;
      this.measurement := measurement;
      databaseCreated := false;
      createdDatabases := [];
      written := [];
    }

    /**
     * `write_events(snapshot)`: creates the database on first use (a missing
     * `database` option raises `KeyError` before anything happens), then
     * writes one point unless the snapshot is empty.
     */
    method WriteEvents(snapshot: map<string, int>) returns (err: Option<DriverError>)
      requires Valid()
      modifies this
      ensures Valid()
      ensures !old(databaseCreated) && "database" !in connectOptions ==>
        err == Some(KeyError("database")) && unchanged(this)
      ensures old(databaseCreated) || "database" in connectOptions ==>
        && err == None
        && databaseCreated
        && createdDatabases == (if old(databaseCreated) then old(createdDatabases) else [connectOptions["database"]])
        && written == old(written) + (if snapshot == map[] then [] else [Point(measurement, tags, snapshot)])
    {
      if !databaseCreated {
        if "database" !in connectOptions {
          return Some(KeyError("database"));
        }
        createdDatabases := createdDatabases + [connectOptions["database"]];
        databaseCreated := true;
      }
      if snapshot != map[] {
        written := written + [Point(measurement, tags, snapshot)];
      }
      err := None;
    }
  }

  /** The tags `CrawlerInfluxdbExportDriver` insists on, in the order it checks them. */
  const CrawlerRequiredTags: seq<string> := ["hostname", "project", "crawler_id"]

  function MissingTagMessage(tag: string): string
  {
    "Tag " + tag + " is required to use CalwerInfluxdbExportDriver"
  }

  /** The crawler driver's tag check: reports the first required tag that is missing. */
  method CheckCrawlerTags(tags: map<string, string>) returns (err: Option<DriverError>)
    ensures err.None? <==> forall i :: 0 <= i < |CrawlerRequiredTags| ==> CrawlerRequiredTags[i] in tags
    ensures err.Some? ==>
      exists i :: 0 <= i < |CrawlerRequiredTags| && CrawlerRequiredTags[i] !in tags
               && (forall j :: 0 <= j < i ==> CrawlerRequiredTags[j] in tags)
               && err.value == ConfigError(MissingTagMessage(CrawlerRequiredTags[i]))
  {
    var i := 0;
    while i < |CrawlerRequiredTags|
      invariant 0 <= i <= |CrawlerRequiredTags|
      invariant forall j :: 0 <= j < i ==> CrawlerRequiredTags[j] in tags
    {
      var key := CrawlerRequiredTags[i];
      if key !in tags {
        return Some(ConfigError(MissingTagMessage(key)));
      }
      i := i + 1;
    }
    err := None;
  }

  /** `CrawlerInfluxdbExportDriver(connect_options, tags, measurement)`: the tag check, then the influx driver. */
  method NewCrawlerInfluxdbExportDriver(connectOptions: map<string, string>, tags: map<string, string>,
                                        measurement: string := "crawler_stats")
    returns (r: Result<InfluxdbExportDriver, DriverError>)
    ensures r.Failure? <==> exists i :: 0 <= i < |CrawlerRequiredTags| && CrawlerRequiredTags[i] !in tags
    ensures r.Failure? ==> r.error.ConfigError?
    ensures r.Success? ==>
      && fresh(r.value) && r.value.Valid()
      && r.value.connectOptions == connectOptions && r.value.tags == tags && r.value.measurement == measurement
      && !r.value.databaseCreated && r.value.written == []
  {
    var err := CheckCrawlerTags(tags);
    if err.Some? {
      return Failure(err.value);
    }
    var driver := new InfluxdbExportDriver(connectOptions, tags, measurement);
    r := Success(driver);
  }

  /**
   * One cycle of the export thread: snapshot the totals, write their delta
   * against the previous snapshot, and keep the snapshot as the next previous
   * one (which happens even when the write raises).
   */
  method ExportCycle(stat: Stat, driver: InfluxdbExportDriver, prev: Option<map<string, int>>)
    returns (next: Option<map<string, int>>, err: Option<DriverError>)
    requires driver.Valid()
    modifies driver
    ensures driver.Valid()
    ensures next == Some(stat.totalCounters)
    ensures err.Some? <==> !old(driver.databaseCreated) && "database" !in driver.connectOptions
    ensures err.Some? ==> err.value == KeyError("database") && unchanged(driver)
    ensures err.None? ==>
      && driver.databaseCreated
      && driver.createdDatabases
           == (if old(driver.databaseCreated) then old(driver.createdDatabases) else [driver.connectOptions["database"]])
      && driver.written == old(driver.written)
           + (if stat.totalCounters == map[] then [] else [Point(driver.measurement, driver.tags, Delta(prev, stat.totalCounters))])
  {
    var counters := stat.totalCounters;
    var delta := Delta(prev, counters);
    next := Some(counters);
    assert delta == map[] <==> counters == map[] by {
      if counters == map[] {
        assert delta.Keys == {};
      } else {
        var k :| k in counters;
        assert k in delta;
      }
    }
    err := driver.WriteEvents(delta);
  }
}
