/** `syncCustomerHubMaster`: upsert every FltHubMstSet record by `hubCode`,
    then enrich each resulting hub with its ship-to-party address, trying
    the fleet code first and the hub code second. */
module HubSync {
  import opened Store
  import opened Http
  import opened SyncLogs
  import Schemas

  const Action := "sync_customer_hub_master"
  const Retries := 3
  const InitialDelayMs := 1000
  const InvalidResponse := "Invalid response from SAP FltHubMstSet"

  /** The upsert for one hub record: filter `{ hubCode: HubCode }`, `$set`
      of `hubCode`, `hubName` and `fleetCode`. A newly inserted hub gets the
      schema defaults and the id `newId(hubCode)`. */
  function HubOp(r: Row, newId: Value -> Value): (op: Upsert<Value>)
    ensures op.key == Field(r, "HubCode") && op.filter == Schemas.HubFilter
    ensures op.update.Keys <= {"hubCode", "hubName", "fleetCode"}
    ensures "HubCode" in r ==> "hubCode" in op.update && op.update["hubCode"] == Str(r["HubCode"])
    ensures "HubName" in r ==> "hubName" in op.update && op.update["hubName"] == Str(r["HubName"])
    ensures "Kunnr" in r ==> "fleetCode" in op.update && op.update["fleetCode"] == Str(r["Kunnr"])
    ensures Visible(op.insert) && Visible(op.update) && OpKeyed(op, "hubCode")
  {
    var code := Field(r, "HubCode");
    Upsert(code, Schemas.HubFilter,
      Schemas.HubDefaults + Put(map["_id" := newId(code)], "hubCode", code),
      Put(Put(Put(map[], "hubCode", code), "hubName", Field(r, "HubName")), "fleetCode", Field(r, "Kunnr")))
  }

  function HubOps(rows: seq<Row>, newId: Value -> Value): (ops: seq<Upsert<Value>>)
    ensures |ops| == |rows| && forall i :: 0 <= i < |rows| ==> ops[i] == HubOp(rows[i], newId)
  {
    seq(|rows|, i requires 0 <= i < |rows| => HubOp(rows[i], newId))
  }

  /** The documents `Promise.all` resolves to: each `findOneAndUpdate` with
      `new: true` yields its document right after its own update. */
  function Resolved(c: Collection<Value>, ops: seq<Upsert<Value>>): (r: seq<Doc>)
    ensures |r| == |ops|
    decreases |ops|
  {
    if ops == [] then []
    else Resolved(c, ops[..|ops| - 1]) + [ApplyAll(c, ops)[ops[|ops| - 1].key]]
  }

  // ---------------------------------------------------------------------
  // Ship-to-party enrichment

  /** The rows kept for a hub: `Kunn2` is the hub's code, sales organisation
      1000, division 20, distribution channel 10. */
  predicate ShipFilter(e: Row, hubCode: Value)
  {
    Field(e, "Kunn2") == hubCode && Field(e, "Vkorg") == Str("1000") &&
    Field(e, "Spart") == Str("20") && Field(e, "Vtweg") == Str("10")
  }

  function ShipMatches(rows: seq<Row>, hubCode: Value): (r: seq<Row>)
    ensures forall i :: 0 <= i < |r| ==> ShipFilter(r[i], hubCode)
    decreases |rows|
  {
    if rows == [] then []
    else (if ShipFilter(rows[0], hubCode) then [rows[0]] else []) + ShipMatches(rows[1..], hubCode)
  }

  /** The upsert for one matching ship-to-party row: filter `{ hubCode:
      Kunn2 }`, `$set` of the address fields. */
  function ShipOp(e: Row, newId: Value -> Value): (op: Upsert<Value>)
    ensures op.key == Field(e, "Kunn2") && op.filter == Schemas.HubFilter
    ensures op.update.Keys <= {"pinCode", "address", "city", "depoCode"}
    ensures Visible(op.insert) && Visible(op.update) && OpKeyed(op, "hubCode")
  {
    var code := Field(e, "Kunn2");
    Upsert(code, Schemas.HubFilter,
      Schemas.HubDefaults + Put(map["_id" := newId(code)], "hubCode", code),
      Put(Put(Put(Put(map[], "pinCode", Field(e, "Kunn2Pincode")), "address", Field(e, "Kunn2Address")),
              "city", Field(e, "Kunn2City")), "depoCode", Field(e, "Shpvkbur")))
  }

  /** Each address field the row carries is written under its hub name. */
  lemma ShipOpFields(e: Row, newId: Value -> Value)
    ensures var u := ShipOp(e, newId).update;
      ("Kunn2Pincode" in e ==> "pinCode" in u && u["pinCode"] == Str(e["Kunn2Pincode"])) &&
      ("Kunn2Address" in e ==> "address" in u && u["address"] == Str(e["Kunn2Address"])) &&
      ("Kunn2City" in e ==> "city" in u && u["city"] == Str(e["Kunn2City"])) &&
      ("Shpvkbur" in e ==> "depoCode" in u && u["depoCode"] == Str(e["Shpvkbur"]))
  {
  }

  function ShipOps(ms: seq<Row>, newId: Value -> Value): (ops: seq<Upsert<Value>>)
    ensures |ops| == |ms| && forall i :: 0 <= i < |ms| ==> ops[i] == ShipOp(ms[i], newId)
  {
    seq(|ms|, i requires 0 <= i < |ms| => ShipOp(ms[i], newId))
  }

  /** What the ship-to-party step does for one resolved hub: the `Kunnr`
      filter values it queries, the rows it applies, and whether a query
      threw (caught and logged). */
  datatype Step = Step(queries: seq<Value>, matched: seq<Row>, failed: bool)

  function ShipStep(d: Doc, shipNet: Value -> nat -> Attempt): Step
  {
    var hubCode, fleetCode := Lookup(d, "hubCode"), Lookup(d, "fleetCode");
    var g1 := Outcome(Retries, Default2xx, shipNet(fleetCode));
    if g1.Threw? then Step([fleetCode], [], true)
    else
      var m1 := ShipMatches(RowsOf(g1), hubCode);
      if m1 != [] then Step([fleetCode], m1, false)
      else
        var g2 := Outcome(Retries, Default2xx, shipNet(hubCode));
        if g2.Threw? then Step([fleetCode, hubCode], [], true)
        else Step([fleetCode, hubCode], ShipMatches(RowsOf(g2), hubCode), false)
  }

  /** The step's upserts that take effect: they are awaited one by one, and
      the first that fails (`lands(i)` false) is caught by the hub's `try`,
      which abandons the rest of that hub's rows. */
  function ShipApplied(d: Doc, shipNet: Value -> nat -> Attempt, lands: nat -> bool, newId: Value -> Value): seq<Upsert<Value>>
  {
    var all := ShipOps(ShipStep(d, shipNet).matched, newId);
    all[..FirstUnlanded(lands, |all|)]
  }

  /** The enrichment upserts of the resolved hubs, hub by hub; `shipLands(j)`
      says which of hub j's upserts succeed. */
  function StepsOps(ds: seq<Doc>, shipNet: Value -> nat -> Attempt, shipLands: nat -> nat -> bool, newId: Value -> Value): seq<Upsert<Value>>
    decreases |ds|
  {
    if ds == [] then []
    else
      var n := |ds| - 1;
      StepsOps(ds[..n], shipNet, shipLands, newId) + ShipApplied(ds[n], shipNet, shipLands(n), newId)
  }

  function StepsQueries(ds: seq<Doc>, shipNet: Value -> nat -> Attempt): seq<Value>
    decreases |ds|
  {
    if ds == [] then []
    else StepsQueries(ds[..|ds| - 1], shipNet) + ShipStep(ds[|ds| - 1], shipNet).queries
  }

  // ---------------------------------------------------------------------
  // The sync

  /** Step 2: one `findOneAndUpdate` per hub record, all run by
      `Promise.all`, in order; `fails(i)` is the error of upsert i, if it
      fails. A failed upsert changes nothing, the first failure is the
      rejection, and without one each resolved document is kept. */
  method UpsertHubs(hubs: Collection<Value>, ops: seq<Upsert<Value>>, fails: nat -> Option<string>)
    returns (hubs': Collection<Value>, resolved: seq<Doc>, rejection: Option<string>)
    ensures hubs' == ApplyAll(hubs, Landed(ops, Lands(fails)))
    ensures rejection == FirstFailure(fails, |ops|)
    ensures rejection.None? ==> hubs' == ApplyAll(hubs, ops) && resolved == Resolved(hubs, ops)
  {
    hubs', resolved, rejection := hubs, [], None;
    var i := 0;
    while i < |ops|
      invariant 0 <= i <= |ops|
      invariant hubs' == ApplyAll(hubs, Landed(ops[..i], Lands(fails)))
      invariant rejection == FirstFailure(fails, i)
      invariant rejection.None? ==> hubs' == ApplyAll(hubs, ops[..i]) && resolved == Resolved(hubs, ops[..i])
    {
      LandedStep(hubs, ops, Lands(fails), i);
      assert Lands(fails)(i) == fails(i).None?;
      assert FirstFailure(fails, i + 1) == if rejection.Some? then rejection else fails(i);
      if fails(i).Some? {
        if rejection.None? {
          rejection := fails(i);
        }
      } else {
        ResolvedStep(hubs, ops, i);
        hubs' := Apply(hubs', ops[i]);
        resolved := resolved + [hubs'[ops[i].key]];
      }
      i := i + 1;
    }
    assert ops[..|ops|] == ops;
  }

  /** One more upsert: it follows the earlier ones, and its document is
      the one it leaves behind. */
  lemma ResolvedStep(c: Collection<Value>, ops: seq<Upsert<Value>>, i: nat)
    requires i < |ops|
    ensures ApplyAll(c, ops[..i + 1]) == Apply(ApplyAll(c, ops[..i]), ops[i])
    ensures Resolved(c, ops[..i + 1]) == Resolved(c, ops[..i]) + [Apply(ApplyAll(c, ops[..i]), ops[i])[ops[i].key]]
  {
    assert ops[..i + 1][..i] == ops[..i];
  }

  /** Step 3 for one resolved hub, inside its `try`: a query error or a
      failed upsert is caught, so the step itself never fails the run. */
  method ShipToParty(c: Collection<Value>, data: Doc, shipNet: Value -> nat -> Attempt, lands: nat -> bool, newId: Value -> Value)
    returns (c': Collection<Value>, queries: seq<Value>)
    ensures c' == ApplyAll(c, ShipApplied(data, shipNet, lands, newId))
    ensures queries == ShipStep(data, shipNet).queries
  {
    var hubCode, fleetCode := Lookup(data, "hubCode"), Lookup(data, "fleetCode");
    var matched: seq<Row> := [];
    var g1, _, _ := RobustGet(Retries, InitialDelayMs, Default2xx, shipNet(fleetCode));
    queries := [fleetCode];
    if g1.Got? {
      matched := ShipMatches(RowsOf(g1), hubCode);
      if matched == [] {
        var g2, _, _ := RobustGet(Retries, InitialDelayMs, Default2xx, shipNet(hubCode));
        queries := queries + [hubCode];
        if g2.Got? {
          matched := ShipMatches(RowsOf(g2), hubCode);
        }
      }
    }
    c' := ApplyUntilFail(c, ShipOps(matched, newId), lands);
  }

  /** One more resolved hub: its step's upserts follow the earlier ones. */
  lemma EnrichStep(c: Collection<Value>, ds: seq<Doc>, shipNet: Value -> nat -> Attempt, shipLands: nat -> nat -> bool,
                   newId: Value -> Value, n: nat)
    requires n < |ds|
    ensures ApplyAll(c, StepsOps(ds[..n + 1], shipNet, shipLands, newId)) ==
      ApplyAll(ApplyAll(c, StepsOps(ds[..n], shipNet, shipLands, newId)), ShipApplied(ds[n], shipNet, shipLands(n), newId))
    ensures StepsQueries(ds[..n + 1], shipNet) == StepsQueries(ds[..n], shipNet) + ShipStep(ds[n], shipNet).queries
  {
    assert ds[..n + 1][..n] == ds[..n];
    ApplyAllConcat(c, StepsOps(ds[..n], shipNet, shipLands, newId), ShipApplied(ds[n], shipNet, shipLands(n), newId));
  }

  /** Step 3 over all resolved hubs, one after another. */
  method EnrichAll(c: Collection<Value>, resolved: seq<Doc>, shipNet: Value -> nat -> Attempt, shipLands: nat -> nat -> bool,
                   newId: Value -> Value)
    returns (c': Collection<Value>, queries: seq<Value>)
    ensures c' == ApplyAll(c, StepsOps(resolved, shipNet, shipLands, newId))
    ensures queries == StepsQueries(resolved, shipNet)
  {
    c' := c;
    queries := [];
    var j := 0;
    while j < |resolved|
      invariant 0 <= j <= |resolved|
      invariant c' == ApplyAll(c, StepsOps(resolved[..j], shipNet, shipLands, newId))
      invariant queries == StepsQueries(resolved[..j], shipNet)
    {
      var q;
      c', q := ShipToParty(c', resolved[j], shipNet, shipLands(j), newId);
      queries := queries + q;
      EnrichStep(c, resolved, shipNet, shipLands, newId, j);
      j := j + 1;
    }
    assert resolved[..|resolved|] == resolved;
  }

  /** The hub service's run against the hub collection `hubs`. `hubNet` is
      the FltHubMstSet service's answer to each attempt, `hubFails(i)` the
      error of the i-th hub upsert, if it fails; `shipNet(x)` is the answer
      of ShipToPartySet filtered by `Kunnr eq 'x'`, and `shipLands(j)(i)`
      says whether the i-th enrichment upsert of hub j succeeds. `queries`
      lists, in order, the filter values sent to ShipToPartySet. */
  method SyncCustomerHubMaster(hubs: Collection<Value>, newId: Value -> Value, hubNet: nat -> Attempt,
                               hubFails: nat -> Option<string>, shipNet: Value -> nat -> Attempt, shipLands: nat -> nat -> bool)
    returns (hubs': Collection<Value>, log: SyncLog, exit: Exit, queries: seq<Value>)
    ensures var g := Outcome(Retries, Default2xx, hubNet);
      if g.Got? && g.resp.body.Results? then
        var ops := HubOps(g.resp.body.rows, newId);
        var e := FirstFailure(hubFails, |ops|);
        if e.Some? then
          hubs' == ApplyAll(hubs, Landed(ops, Lands(hubFails))) && queries == [] &&
          log == Fail(Create(Action, None), e.value) && exit == Raised(e.value)
        else
          var resolved := Resolved(hubs, ops);
          hubs' == ApplyAll(ApplyAll(hubs, ops), StepsOps(resolved, shipNet, shipLands, newId)) &&
          queries == StepsQueries(resolved, shipNet) &&
          log == Succeed(Create(Action, None), map["totalHubs" := |g.resp.body.rows|]) && exit == Done
      else
        var msg := if g.Got? then InvalidResponse else Message(g.err);
        hubs' == hubs && queries == [] && log == Fail(Create(Action, None), msg) && exit == Raised(msg)
  {
    log := Create(Action, None);
    hubs' := hubs;
    queries := [];
    var g, _, _ := RobustGet(Retries, InitialDelayMs, Default2xx, hubNet);
    if g.Threw? {
      log := Fail(log, Message(g.err));
      exit := Raised(Message(g.err));
      return;
    }
    if !g.resp.body.Results? {
      log := Fail(log, InvalidResponse);
      exit := Raised(InvalidResponse);
      return;
    }
    var rows := g.resp.body.rows;
    var resolved, rejection;
    hubs', resolved, rejection := UpsertHubs(hubs, HubOps(rows, newId), hubFails);
    if rejection.Some? {
      log := Fail(log, rejection.value);
      exit := Raised(rejection.value);
      return;
    }
    hubs', queries := EnrichAll(hubs', resolved, shipNet, shipLands, newId);
    log := Succeed(log, map["totalHubs" := |rows|]);
    exit := Done;
  }

  // ---------------------------------------------------------------------
  // Properties

  /** Re-applying the same hub snapshot changes nothing. */
  lemma HubSnapshotIdempotent(hubs: Collection<Value>, rows: seq<Row>, newId: Value -> Value)
    ensures var ops := HubOps(rows, newId);
      ApplyAll(ApplyAll(hubs, ops), ops) == ApplyAll(hubs, ops)
  {
    Idempotent(hubs, HubOps(rows, newId), LiveOnly);
  }

  /** The ship-to-party filter keeps exactly the matching rows, as often as
      they occur. */
  lemma {:induction false} ShipMatchesCounts(rows: seq<Row>, hubCode: Value)
    ensures forall e :: multiset(ShipMatches(rows, hubCode))[e] == if ShipFilter(e, hubCode) then multiset(rows)[e] else 0
    decreases |rows|
  {
    if rows != [] {
      ShipMatchesCounts(rows[1..], hubCode);
      assert rows == [rows[0]] + rows[1..];
    }
  }

  /** The hub code is queried only when the fleet-code query answered and
      none of its rows matched; rows applied always match the hub. */
  lemma SecondQueryOnlyWhenNoMatch(d: Doc, shipNet: Value -> nat -> Attempt)
    ensures var s := ShipStep(d, shipNet);
      var g1 := Outcome(Retries, Default2xx, shipNet(Lookup(d, "fleetCode")));
      1 <= |s.queries| <= 2 && s.queries[0] == Lookup(d, "fleetCode") &&
      (|s.queries| == 2 <==> g1.Got? && ShipMatches(RowsOf(g1), Lookup(d, "hubCode")) == []) &&
      (|s.queries| == 2 ==> s.queries[1] == Lookup(d, "hubCode")) &&
      (s.failed ==> s.matched == []) &&
      (forall e :: e in s.matched ==> ShipFilter(e, Lookup(d, "hubCode")))
  {
  }

  lemma {:induction false} ResolvedAt(c: Collection<Value>, ops: seq<Upsert<Value>>, m: nat)
    requires m < |ops|
    ensures ops[m].key in ApplyAll(c, ops[..m + 1])
    ensures Resolved(c, ops)[m] == ApplyAll(c, ops[..m + 1])[ops[m].key]
    decreases |ops|
  {
    if m < |ops| - 1 {
      var init := ops[..|ops| - 1];
      assert init[..m + 1] == ops[..m + 1];
      ResolvedAt(c, init, m);
    } else {
      assert ops[..m + 1] == ops;
    }
  }

  /** An enrichment upsert: keyed by `hubCode`, under the soft-delete hook,
      never hiding a document, never touching name or fleet code, and aimed
      at one of the codes in `codes`. */
  predicate ShipShaped(op: Upsert<Value>, codes: set<Value>)
  {
    OpKeyed(op, "hubCode") && op.filter == LiveOnly && Visible(op.insert) && Visible(op.update) &&
    "hubName" !in op.update && "fleetCode" !in op.update && "active" !in op.update && op.key in codes
  }

  predicate AllShaped(ops: seq<Upsert<Value>>, codes: set<Value>)
  {
    forall i :: 0 <= i < |ops| ==> ShipShaped(ops[i], codes)
  }

  lemma AllShapedConcat(a: seq<Upsert<Value>>, b: seq<Upsert<Value>>, codes: set<Value>)
    requires AllShaped(a, codes) && AllShaped(b, codes)
    ensures AllShaped(a + b, codes)
  {
    forall i | 0 <= i < |a + b| ensures ShipShaped((a + b)[i], codes) {
      if i >= |a| {
        assert (a + b)[i] == b[i - |a|];
      }
    }
  }

  function HubCodes(ds: seq<Doc>): set<Value>
  {
    set m | 0 <= m < |ds| :: Lookup(ds[m], "hubCode")
  }

  lemma ShipOpsShaped(d: Doc, shipNet: Value -> nat -> Attempt, lands: nat -> bool, newId: Value -> Value, codes: set<Value>)
    requires Lookup(d, "hubCode") in codes
    ensures AllShaped(ShipApplied(d, shipNet, lands, newId), codes)
  {
    var ms := ShipStep(d, shipNet).matched;
    assert forall i :: 0 <= i < |ms| ==> ShipFilter(ms[i], Lookup(d, "hubCode"));
    MatchedShaped(ms, Lookup(d, "hubCode"), newId, codes);
    var all := ShipOps(ms, newId);
    var m := FirstUnlanded(lands, |all|);
    assert forall i :: 0 <= i < m ==> all[..m][i] == all[i];
  }

  lemma MatchedShaped(ms: seq<Row>, hubCode: Value, newId: Value -> Value, codes: set<Value>)
    requires hubCode in codes && forall i :: 0 <= i < |ms| ==> ShipFilter(ms[i], hubCode)
    ensures AllShaped(ShipOps(ms, newId), codes)
  {
    forall i | 0 <= i < |ms|
      ensures ShipShaped(ShipOp(ms[i], newId), codes)
    {
      var op := ShipOp(ms[i], newId);
      assert op.key == hubCode;
      assert op.update.Keys <= {"pinCode", "address", "city", "depoCode"};
    }
  }

  lemma {:induction false} StepsOpsShape(ds: seq<Doc>, shipNet: Value -> nat -> Attempt, shipLands: nat -> nat -> bool,
                                         newId: Value -> Value, codes: set<Value>)
    requires HubCodes(ds) <= codes
    ensures AllShaped(StepsOps(ds, shipNet, shipLands, newId), codes)
    decreases |ds|
  {
    if ds != [] {
      var init := ds[..|ds| - 1];
      assert HubCodes(init) <= HubCodes(ds) by {
        forall m | 0 <= m < |init| ensures Lookup(init[m], "hubCode") in HubCodes(ds) {
          assert init[m] == ds[m];
        }
      }
      assert Lookup(ds[|ds| - 1], "hubCode") in HubCodes(ds);
      StepsOpsShape(init, shipNet, shipLands, newId, codes);
      ShipOpsShaped(ds[|ds| - 1], shipNet, shipLands(|ds| - 1), newId, codes);
      AllShapedConcat(StepsOps(init, shipNet, shipLands, newId), ShipApplied(ds[|ds| - 1], shipNet, shipLands(|ds| - 1), newId), codes);
    }
  }

  /** Under a keyed collection, each resolved document carries the key of
      the record that produced it. */
  lemma ResolvedCodes(hubs: Collection<Value>, ops: seq<Upsert<Value>>)
    requires KeyedBy(hubs, "hubCode")
    requires forall i :: 0 <= i < |ops| ==> OpKeyed(ops[i], "hubCode")
    ensures HubCodes(Resolved(hubs, ops)) <= KeysOf(ops)
  {
    var resolved := Resolved(hubs, ops);
    forall m | 0 <= m < |resolved|
      ensures Lookup(resolved[m], "hubCode") in KeysOf(ops)
    {
      ResolvedAt(hubs, ops, m);
      ApplyAllKeyed(hubs, ops[..m + 1], "hubCode");
      assert ops[m].key in KeysOf(ops);
    }
  }

  /** The hub collection keeps recording each hub under its own `hubCode`. */
  lemma HubSyncKeepsKeyed(hubs: Collection<Value>, rows: seq<Row>, newId: Value -> Value, shipNet: Value -> nat -> Attempt,
                          shipLands: nat -> nat -> bool)
    requires KeyedBy(hubs, "hubCode")
    ensures var ops := HubOps(rows, newId);
      KeyedBy(ApplyAll(ApplyAll(hubs, ops), StepsOps(Resolved(hubs, ops), shipNet, shipLands, newId)), "hubCode")
  {
    var ops := HubOps(rows, newId);
    var resolved := Resolved(hubs, ops);
    ApplyAllKeyed(hubs, ops, "hubCode");
    StepsOpsShape(resolved, shipNet, shipLands, newId, HubCodes(resolved));
    ShapedUniform(StepsOps(resolved, shipNet, shipLands, newId), HubCodes(resolved));
    ApplyAllKeyed(ApplyAll(hubs, ops), StepsOps(resolved, shipNet, shipLands, newId), "hubCode");
  }

  /** Enrichment upserts are uniform under the soft-delete hook and aimed at
      `codes` only. */
  lemma ShapedUniform(ops: seq<Upsert<Value>>, codes: set<Value>)
    requires AllShaped(ops, codes)
    ensures Uniform(ops, LiveOnly) && KeysOf(ops) <= codes && forall i :: 0 <= i < |ops| ==> OpKeyed(ops[i], "hubCode")
    ensures forall i :: 0 <= i < |ops| ==> "hubName" !in ops[i].update && "fleetCode" !in ops[i].update && "active" !in ops[i].update
  {
  }

  /** After step 2, the hub of a record no later record overrides is stored
      and visible under its code, with the record's name and fleet code. */
  lemma StoredAfterHubs(hubs: Collection<Value>, rows: seq<Row>, newId: Value -> Value, i: nat)
    requires i < |rows| && forall j :: i < j < |rows| ==> Field(rows[j], "HubCode") != Field(rows[i], "HubCode")
    ensures var stored := ApplyAll(hubs, HubOps(rows, newId));
      var key := Field(rows[i], "HubCode");
      key in stored && Visible(stored[key]) &&
      ("HubName" in rows[i] ==> Lookup(stored[key], "hubName") == Str(rows[i]["HubName"])) &&
      ("Kunnr" in rows[i] ==> Lookup(stored[key], "fleetCode") == Str(rows[i]["Kunnr"]))
  {
    var ops := HubOps(rows, newId);
    assert Uniform(ops, LiveOnly);
    Cover(hubs, ops, LiveOnly);
    assert ops[i].key in KeysOf(ops);
    LastWriteWins(hubs, ops, LiveOnly, i);
  }

  /** The enrichment never changes which hubs exist, nor their name, fleet
      code or visibility. */
  lemma EnrichKeeps(stored: Collection<Value>, ship: seq<Upsert<Value>>, codes: set<Value>)
    requires AllShaped(ship, codes)
    requires forall k :: k in codes ==> k in stored && Visible(stored[k])
    ensures ApplyAll(stored, ship).Keys == stored.Keys
    ensures forall k :: k in stored ==>
      Lookup(ApplyAll(stored, ship)[k], "hubName") == Lookup(stored[k], "hubName") &&
      Lookup(ApplyAll(stored, ship)[k], "fleetCode") == Lookup(stored[k], "fleetCode") &&
      (Visible(stored[k]) ==> Visible(ApplyAll(stored, ship)[k]))
  {
    ShapedUniform(ship, codes);
    KeepsField(stored, ship, LiveOnly, "hubName");
    KeepsField(stored, ship, LiveOnly, "fleetCode");
    KeepsField(stored, ship, LiveOnly, "active");
  }

  /** One write per record, keyed correctly: after a successful run, the hub
      of a record that no later record overrides is stored and visible
      under its `HubCode`, with the record's name and fleet code; the
      ship-to-party step never touches those two fields. */
  lemma HubRecordStored(hubs: Collection<Value>, rows: seq<Row>, newId: Value -> Value,
                        shipNet: Value -> nat -> Attempt, shipLands: nat -> nat -> bool, i: nat)
    requires KeyedBy(hubs, "hubCode")
    requires i < |rows| && forall j :: i < j < |rows| ==> Field(rows[j], "HubCode") != Field(rows[i], "HubCode")
    ensures var ops := HubOps(rows, newId);
      var final := ApplyAll(ApplyAll(hubs, ops), StepsOps(Resolved(hubs, ops), shipNet, shipLands, newId));
      var key := Field(rows[i], "HubCode");
      key in final && Visible(final[key]) &&
      ("HubName" in rows[i] ==> Lookup(final[key], "hubName") == Str(rows[i]["HubName"])) &&
      ("Kunnr" in rows[i] ==> Lookup(final[key], "fleetCode") == Str(rows[i]["Kunnr"]))
  {
    var ops := HubOps(rows, newId);
    var stored := ApplyAll(hubs, ops);
    var resolved := Resolved(hubs, ops);
    var ship := StepsOps(resolved, shipNet, shipLands, newId);
    assert forall j :: 0 <= j < |ops| ==> OpKeyed(ops[j], "hubCode");
    ResolvedCodes(hubs, ops);
    StepsOpsShape(resolved, shipNet, shipLands, newId, KeysOf(ops));
    assert Uniform(ops, LiveOnly);
    Cover(hubs, ops, LiveOnly);
    EnrichKeeps(stored, ship, KeysOf(ops));
    StoredAfterHubs(hubs, rows, newId, i);
  }
}
