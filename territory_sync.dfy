/** `syncTerritoriesMaster`: fetch plant attributes and region master data,
    resolve each territory's region and zone through the region rows, and
    upsert one territory per plant (`depoCode`). */
module TerritorySync {
  import opened Store
  import opened Http
  import opened SyncLogs

  const Action := "sync_territories_master"
  const Retries := 3
  const InitialDelayMs := 1000
  const InvalidResponse := "Invalid response from SAP territory/region endpoints"

  /** The zone code to zone name table. */
  const ZoneMap: map<string, string> :=
    map["NZ" := "North Zone", "SZ" := "South Zone", "EZ" := "East Zone", "WZ" := "West Zone",
        "CZ" := "Central Zone", "TZ" := "South Zone-2", "O" := "Other"]

  /** `zoneMap[zoneCode] ?? zoneCode`: the table's name, or the code itself. */
  function ZoneName(zoneCode: string): (name: string)
    ensures zoneCode in ZoneMap ==> name == ZoneMap[zoneCode]
    ensures zoneCode !in ZoneMap ==> name == zoneCode
  {
    if zoneCode in ZoneMap then ZoneMap[zoneCode] else zoneCode
  }

  /** The property name a record's field becomes when used as an object key:
      its text, or "undefined" when the field is missing. */
  function PropKey(r: Row, f: string): string
  {
    if f in r then r[f] else "undefined"
  }

  /** `regionData.forEach(region => m[region.Region] = region.<f>)`, as a
      map built from the rows in order. */
  function RegionMap(regions: seq<Row>, f: string): (m: map<string, Value>)
    decreases |regions|
  {
    if regions == [] then map[]
    else RegionMap(regions[..|regions| - 1], f)[PropKey(regions[|regions| - 1], "Region") := Field(regions[|regions| - 1], f)]
  }

  /** The map has an entry for exactly the regions' keys, and the entry is
      that of the last row with the key: a later row overwrites. */
  lemma {:induction false} RegionMapLastWins(regions: seq<Row>, f: string, i: nat)
    requires i < |regions|
    requires forall j :: i < j < |regions| ==> PropKey(regions[j], "Region") != PropKey(regions[i], "Region")
    ensures PropKey(regions[i], "Region") in RegionMap(regions, f)
    ensures RegionMap(regions, f)[PropKey(regions[i], "Region")] == Field(regions[i], f)
    decreases |regions|
  {
    if i < |regions| - 1 {
      RegionMapLastWins(regions[..|regions| - 1], f, i);
    }
  }

  lemma {:induction false} RegionMapKeys(regions: seq<Row>, f: string)
    ensures RegionMap(regions, f).Keys == set i | 0 <= i < |regions| :: PropKey(regions[i], "Region")
    decreases |regions|
  {
    if regions != [] {
      var init := regions[..|regions| - 1];
      RegionMapKeys(init, f);
      var s := set i | 0 <= i < |regions| :: PropKey(regions[i], "Region");
      var s0 := set i | 0 <= i < |init| :: PropKey(init[i], "Region");
      assert s == s0 + {PropKey(regions[|regions| - 1], "Region")} by {
        forall k | k in s ensures k in s0 + {PropKey(regions[|regions| - 1], "Region")} {
          var i :| 0 <= i < |regions| && PropKey(regions[i], "Region") == k;
          if i < |init| {
            assert init[i] == regions[i];
          }
        }
        forall k | k in s0 ensures k in s {
          var i :| 0 <= i < |init| && PropKey(init[i], "Region") == k;
          assert init[i] == regions[i];
        }
      }
    }
  }

  /** A key no region row carries has no entry. */
  lemma {:induction false} RegionMapAbsent(regions: seq<Row>, f: string, key: string)
    requires forall j :: 0 <= j < |regions| ==> PropKey(regions[j], "Region") != key
    ensures key !in RegionMap(regions, f)
    decreases |regions|
  {
    if regions != [] {
      RegionMapAbsent(regions[..|regions| - 1], f, key);
    }
  }

  /** The two maps, filled in one pass over the region rows. */
  method BuildRegionMaps(regions: seq<Row>) returns (names: map<string, Value>, zones: map<string, Value>)
    ensures names == RegionMap(regions, "Name") && zones == RegionMap(regions, "PZone")
  {
    names, zones := map[], map[];
    var i := 0;
    while i < |regions|
      invariant 0 <= i <= |regions|
      invariant names == RegionMap(regions[..i], "Name") && zones == RegionMap(regions[..i], "PZone")
    {
      assert regions[..i + 1][..i] == regions[..i];
      var key := PropKey(regions[i], "Region");
      names := names[key := Field(regions[i], "Name")];
      zones := zones[key := Field(regions[i], "PZone")];
      i := i + 1;
    }
    assert regions[..|regions|] == regions;
  }

  /** `m[k] || ""`: the entry's text when it is a non-empty string. */
  function OrEmpty(m: map<string, Value>, k: string): (s: string)
    ensures k in m && m[k].Str? ==> s == m[k].s
    ensures !(k in m && m[k].Str?) ==> s == ""
  {
    if k in m && m[k].Str? then m[k].s else ""
  }

  /** The upsert for one plant row: filter `{ depoCode: Werk }`, `$set` of the
      region and zone it resolves to. A new territory gets `deleted: false`. */
  function TerritoryOp(d: Row, names: map<string, Value>, zones: map<string, Value>): (op: Upsert<Value>)
    ensures op.key == Field(d, "Werk") && op.filter == AnyDoc && OpKeyed(op, "depoCode")
    ensures var region := PropKey(d, "Region");
      Lookup(op.update, "regionName") == Str(OrEmpty(names, region)) &&
      Lookup(op.update, "zoneCode") == Str(OrEmpty(zones, region)) &&
      Lookup(op.update, "zoneName") == Str(ZoneName(OrEmpty(zones, region))) &&
      Lookup(op.update, "regionCode") == Field(d, "Region") &&
      Lookup(op.update, "depoCode") == Field(d, "Werk")
    ensures op.update.Keys <= {"regionCode", "regionName", "zoneCode", "zoneName", "depoCode"}
  {
    var region := PropKey(d, "Region");
    var zoneCode := OrEmpty(zones, region);
    Upsert(Field(d, "Werk"), AnyDoc,
      Put(map["deleted" := Bool(false)], "depoCode", Field(d, "Werk")),
      Put(Put(map["regionName" := Str(OrEmpty(names, region)), "zoneCode" := Str(zoneCode),
                  "zoneName" := Str(ZoneName(zoneCode))],
              "regionCode", Field(d, "Region")),
          "depoCode", Field(d, "Werk")))
  }

  function TerritoryOps(rows: seq<Row>, names: map<string, Value>, zones: map<string, Value>): (ops: seq<Upsert<Value>>)
    ensures |ops| == |rows| && forall i :: 0 <= i < |rows| ==> ops[i] == TerritoryOp(rows[i], names, zones)
  {
    seq(|rows|, i requires 0 <= i < |rows| => TerritoryOp(rows[i], names, zones))
  }

  /** What `Promise.all` rejects with when a fetch throws: the error of the
      one that failed, or of the one that failed first (`regionFirst`) when
      both did. */
  function FetchError(t: GetResult, r: GetResult, regionFirst: bool): (e: Option<GetError>)
    ensures e.None? <==> t.Got? && r.Got?
    ensures t.Threw? && r.Got? ==> e == Some(t.err)
    ensures t.Got? && r.Threw? ==> e == Some(r.err)
    ensures t.Threw? && r.Threw? ==> e == Some(if regionFirst then r.err else t.err)
  {
    if t.Threw? && (r.Got? || !regionFirst) then Some(t.err)
    else if r.Threw? then Some(r.err)
    else None
  }

  /** The territories job's run against the territory collection;
      `writeFails(i)` is the error of the i-th write of the ordered
      `bulkWrite`, if it fails. */
  method SyncTerritoriesMaster(terr: Collection<Value>, plantNet: nat -> Attempt, regionNet: nat -> Attempt, regionFirst: bool,
                               writeFails: nat -> Option<string>)
    returns (terr': Collection<Value>, log: SyncLog, exit: Exit)
    ensures var t, r := Outcome(Retries, Default2xx, plantNet), Outcome(Retries, Default2xx, regionNet);
      var e := FetchError(t, r, regionFirst);
      if e.None? && t.resp.body.Results? && r.resp.body.Results? then
        var regions := r.resp.body.rows;
        var ops := TerritoryOps(t.resp.body.rows, RegionMap(regions, "Name"), RegionMap(regions, "PZone"));
        var m := FirstUnlanded(Lands(writeFails), |ops|);
        terr' == ApplyAll(terr, ops[..m]) &&
        if m == |ops| then
          terr' == ApplyAll(terr, ops) &&
          log == Succeed(Create(Action, None), map["totalTerritories" := |t.resp.body.rows|, "totalRegions" := |regions|]) &&
          exit == Done
        else
          writeFails(m).Some? && log == Fail(Create(Action, None), writeFails(m).value) && exit == Raised(writeFails(m).value)
      else
        var msg := if e.Some? then Message(e.value) else InvalidResponse;
        terr' == terr && log == Fail(Create(Action, None), msg) && exit == Raised(msg)
  {
    log := Create(Action, None);
    terr' := terr;
    var t, _, _ := RobustGet(Retries, InitialDelayMs, Default2xx, plantNet);
    var r, _, _ := RobustGet(Retries, InitialDelayMs, Default2xx, regionNet);
    var e := FetchError(t, r, regionFirst);
    if e.Some? {
      log := Fail(log, Message(e.value));
      exit := Raised(Message(e.value));
      return;
    }
    if !t.resp.body.Results? || !r.resp.body.Results? {
      log := Fail(log, InvalidResponse);
      exit := Raised(InvalidResponse);
      return;
    }
    var territories, regions := t.resp.body.rows, r.resp.body.rows;
    var names, zones := BuildRegionMaps(regions);
    var ops := TerritoryOps(territories, names, zones);
    var m := FirstUnlanded(Lands(writeFails), |ops|);
    terr' := ApplyUntilFail(terr, ops, Lands(writeFails));
    if m < |ops| {
      log := Fail(log, writeFails(m).value);
      exit := Raised(writeFails(m).value);
      return;
    }
    assert ops[..|ops|] == ops;
    log := Succeed(log, map["totalTerritories" := |territories|, "totalRegions" := |regions|]);
    exit := Done;
  }

  // ---------------------------------------------------------------------
  // Properties

  /** A territory whose region appears in the region data (its last such
      row wins) is stored under its plant with that row's name and zone; the
      zone name comes from the table or is the code. */
  lemma TerritoryStored(terr: Collection<Value>, rows: seq<Row>, regions: seq<Row>, i: nat, k: nat)
    requires i < |rows| && forall j :: i < j < |rows| ==> Field(rows[j], "Werk") != Field(rows[i], "Werk")
    requires k < |regions| && PropKey(regions[k], "Region") == PropKey(rows[i], "Region")
    requires forall j :: k < j < |regions| ==> PropKey(regions[j], "Region") != PropKey(regions[k], "Region")
    requires "Name" in regions[k] && "PZone" in regions[k]
    ensures var c := ApplyAll(terr, TerritoryOps(rows, RegionMap(regions, "Name"), RegionMap(regions, "PZone")));
      var key := Field(rows[i], "Werk");
      key in c && Lookup(c[key], "regionName") == Str(regions[k]["Name"]) &&
      Lookup(c[key], "zoneCode") == Str(regions[k]["PZone"]) &&
      Lookup(c[key], "zoneName") == Str(ZoneName(regions[k]["PZone"]))
  {
    var names, zones := RegionMap(regions, "Name"), RegionMap(regions, "PZone");
    RegionMapLastWins(regions, "Name", k);
    RegionMapLastWins(regions, "PZone", k);
    var ops := TerritoryOps(rows, names, zones);
    assert Uniform(ops, AnyDoc);
    LastWriteWins(terr, ops, AnyDoc, i);
    assert "regionName" in ops[i].update && "zoneCode" in ops[i].update && "zoneName" in ops[i].update;
  }

  /** A territory whose region is missing from the region data gets empty
      region name and zone, and an empty zone name. */
  lemma UnknownRegionEmpty(d: Row, regions: seq<Row>)
    requires forall j :: 0 <= j < |regions| ==> PropKey(regions[j], "Region") != PropKey(d, "Region")
    ensures var op := TerritoryOp(d, RegionMap(regions, "Name"), RegionMap(regions, "PZone"));
      Lookup(op.update, "regionName") == Str("") && Lookup(op.update, "zoneCode") == Str("") &&
      Lookup(op.update, "zoneName") == Str("")
  {
    RegionMapAbsent(regions, "Name", PropKey(d, "Region"));
    RegionMapAbsent(regions, "PZone", PropKey(d, "Region"));
    UnmappedEmpty(d, RegionMap(regions, "Name"), RegionMap(regions, "PZone"));
  }

  lemma UnmappedEmpty(d: Row, names: map<string, Value>, zones: map<string, Value>)
    requires PropKey(d, "Region") !in names && PropKey(d, "Region") !in zones
    ensures var op := TerritoryOp(d, names, zones);
      Lookup(op.update, "regionName") == Str("") && Lookup(op.update, "zoneCode") == Str("") &&
      Lookup(op.update, "zoneName") == Str("")
  {
    assert "" !in ZoneMap;
  }

  /** Territories stay keyed by their `depoCode`, and re-applying the same
      snapshot changes nothing. */
  lemma TerritorySnapshot(terr: Collection<Value>, rows: seq<Row>, names: map<string, Value>, zones: map<string, Value>)
    requires KeyedBy(terr, "depoCode")
    ensures var once := ApplyAll(terr, TerritoryOps(rows, names, zones));
      KeyedBy(once, "depoCode") && ApplyAll(once, TerritoryOps(rows, names, zones)) == once
  {
    var ops := TerritoryOps(rows, names, zones);
    ApplyAllKeyed(terr, ops, "depoCode");
    assert Uniform(ops, AnyDoc);
    Idempotent(terr, ops, AnyDoc);
  }
}
