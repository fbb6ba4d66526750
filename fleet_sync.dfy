/** `syncCustomerFleetMaster`: for every stored hub, fetch the customer
    details of its fleet code once, link the hub to its fleet and upsert
    the fleet by `fleetCode`. A hub whose fetch or update throws is logged
    and skipped. */
module FleetSync {
  import opened Store
  import opened Http
  import opened SyncLogs
  import Schemas

  const Action := "sync_customer_fleet_master"

  // ---------------------------------------------------------------------
  // One hub

  /** The fields of the `findOneAndUpdate`: the fleet code, the seven
      customer fields (a field the record lacks is left out) and
      `isMobility`, true exactly when `Class` is "MB". */
  function FleetFields(code: Value, data: Row): (d: Doc)
  {
    Defined(FleetRaw(code, data))
  }

  /** The fleet part never touches the hub list, the soft-delete flag or
      the other defaults, and always carries `isMobility`. */
  lemma FleetFieldsKeys(code: Value, data: Row)
    ensures var d := FleetFields(code, data);
      "isMobility" in d && "hubs" !in d && "active" !in d &&
      "enableReplacementWithoutInspection" !in d && "canCreateOrder" !in d &&
      ("fleetCode" in d ==> d["fleetCode"] == code)
  {
    DefinedWithin(FleetRaw(code, data));
  }

  /** The update object as the code writes it, `undefined` values included. */
  function FleetRaw(code: Value, data: Row): (m: Doc)
  {
    map["fleetCode" := code, "fleetName" := Field(data, "Name1"), "pinCode" := Field(data, "Pincode"),
        "address" := Field(data, "Address"), "city" := Field(data, "City1"), "mobile" := Field(data, "Mobile"),
        "gstNo" := Field(data, "GstNo"), "Vkbur" := Field(data, "Vkbur"),
        "isMobility" := Bool(Field(data, "Class") == Str("MB"))]
  }

  /** The upsert keyed by `fleetCode`; `hubs: [id]` is part of it only when
      `findOne` found no fleet. A new fleet gets the schema defaults. */
  function FleetOp(code: Value, id: Value, data: Row, found: bool): (op: Upsert<Value>)
    ensures op.key == code && op.filter == Schemas.FleetFilter
    ensures found ==> "hubs" !in op.update
    ensures !found ==> "hubs" in op.update && op.update["hubs"] == List([id])
    ensures Visible(op.insert) && Visible(op.update) && OpKeyed(op, "fleetCode")
  {
    FleetFieldsKeys(code, data);
    Upsert(code, Schemas.FleetFilter, Put(Schemas.FleetDefaults, "fleetCode", code),
           FleetFields(code, data) + (if found then map[] else map["hubs" := List([id])]))
  }

  /** `dbData.hubs.push(hub._id)` on a fleet whose hubs lack the id. */
  function Pushed(doc: Doc, id: Value): (d: Doc)
    ensures d.Keys == doc.Keys + {"hubs"} && Items(d["hubs"]) == Items(Lookup(doc, "hubs")) + [id]
    ensures forall f :: f in doc && f != "hubs" ==> d[f] == doc[f]
  {
    doc["hubs" := List(Items(Lookup(doc, "hubs")) + [id])]
  }

  /** What one hub leaves behind, and whether it was counted. */
  datatype StepResult = StepResult(fleets: Collection<Value>, synced: bool)

  /** The fleet `findOne({ fleetCode })` returns: a live fleet under the code. */
  predicate Found(fleets: Collection<Value>, code: Value)
  {
    code in fleets && Visible(fleets[code])
  }

  /** The fleet must be pushed to and saved: it exists and lacks the hub. */
  predicate MustPush(fleets: Collection<Value>, code: Value, id: Value)
  {
    Found(fleets, code) && id !in Items(Lookup(fleets[code], "hubs"))
  }

  /** The body of the per-hub `try`. `reply` is the answer to the single
      CustDtlSet request for the hub's fleet code. A transport error, a
      non-2xx status or a reply without a `d.results` list throws; an
      empty list only warns; `save` throws when the pushed fleet fails
      the schema's required paths. */
  function FleetStep(fleets: Collection<Value>, hub: Doc, reply: Attempt): StepResult
  {
    var code, id := Lookup(hub, "fleetCode"), Lookup(hub, "_id");
    var g := Try(Default2xx, reply);
    if g.Threw? || !g.resp.body.Results? || g.resp.body.rows == [] then StepResult(fleets, false)
    else if MustPush(fleets, code, id) && !Schemas.FleetValid(Pushed(fleets[code], id)) then StepResult(fleets, false)
    else
      var saved := if MustPush(fleets, code, id) then fleets[code := Pushed(fleets[code], id)] else fleets;
      StepResult(Apply(saved, FleetOp(code, id, g.resp.body.rows[0], Found(fleets, code))), true)
  }

  // ---------------------------------------------------------------------
  // The run

  datatype RunState = RunState(fleets: Collection<Value>, count: nat)

  /** The `for` loop over the hubs, in the order `find` returned them;
      `net(i)` answers the request of hub i. */
  function Run(fleets: Collection<Value>, hubs: seq<Doc>, net: nat -> Attempt): (r: RunState)
    ensures r.count <= |hubs|
    decreases |hubs|
  {
    if hubs == [] then RunState(fleets, 0)
    else
      var n := |hubs| - 1;
      var before := Run(fleets, hubs[..n], net);
      var s := FleetStep(before.fleets, hubs[n], net(n));
      RunState(s.fleets, before.count + if s.synced then 1 else 0)
  }

  /** The fleet codes the run queries, one per hub. */
  function Queries(hubs: seq<Doc>): (q: seq<Value>)
    ensures |q| == |hubs| && forall i :: 0 <= i < |hubs| ==> q[i] == Lookup(hubs[i], "fleetCode")
  {
    seq(|hubs|, i requires 0 <= i < |hubs| => Lookup(hubs[i], "fleetCode"))
  }

  /** One hub, as the loop body does it. */
  method ProcessHub(fleets: Collection<Value>, hub: Doc, reply: Attempt)
    returns (fleets': Collection<Value>, synced: bool)
    ensures StepResult(fleets', synced) == FleetStep(fleets, hub, reply)
  {
    fleets' := fleets;
    synced := false;
    var code, id := Lookup(hub, "fleetCode"), Lookup(hub, "_id");
    var g := Try(Default2xx, reply);
    if g.Threw? || !g.resp.body.Results? {
      // the request or `response.data.d.results.length` threw
      return;
    }
    var rows := g.resp.body.rows;
    if |rows| == 0 {
      // "No SAP data found"
      return;
    }
    var data := rows[0];
    var found := code in fleets' && Visible(fleets'[code]);
    if found {
      var doc := fleets'[code];
      if id !in Items(Lookup(doc, "hubs")) {
        var pushed := Pushed(doc, id);
        if !Schemas.FleetValid(pushed) {
          // `save` rejects the document
          return;
        }
        fleets' := fleets'[code := pushed];
      }
    }
    fleets' := Apply(fleets', FleetOp(code, id, data, found));
    synced := true;
  }

  /** The job's run over the hubs `find({})` returned. `net(i)` answers the
      CustDtlSet request of hub i; `queries` lists the fleet codes sent. */
  method SyncCustomerFleetMaster(fleets: Collection<Value>, allHubs: seq<Doc>, net: nat -> Attempt)
    returns (fleets': Collection<Value>, log: SyncLog, exit: Exit, queries: seq<Value>)
    ensures fleets' == Run(fleets, allHubs, net).fleets
    ensures log == Succeed(Create(Action, None), map["totalHubs" := |allHubs|, "synced" := Run(fleets, allHubs, net).count])
    ensures exit == Done && queries == Queries(allHubs)
  {
    log := Create(Action, None);
    fleets' := fleets;
    queries := [];
    var count := 0;
    var index := 0;
    while index < |allHubs|
      invariant 0 <= index <= |allHubs|
      invariant RunState(fleets', count) == Run(fleets, allHubs[..index], net)
      invariant queries == Queries(allHubs[..index])
    {
      RunStep(fleets, allHubs, net, index);
      var synced;
      queries := queries + [Lookup(allHubs[index], "fleetCode")];
      fleets', synced := ProcessHub(fleets', allHubs[index], net(index));
      if synced {
        count := count + 1;
      }
      index := index + 1;
    }
    assert allHubs[..|allHubs|] == allHubs;
    log := Succeed(log, map["totalHubs" := |allHubs|, "synced" := count]);
    exit := Done;
  }

  /** The run over one more hub is one more step. */
  lemma RunStep(fleets: Collection<Value>, hubs: seq<Doc>, net: nat -> Attempt, n: nat)
    requires n < |hubs|
    ensures var before := Run(fleets, hubs[..n], net);
      var s := FleetStep(before.fleets, hubs[n], net(n));
      Run(fleets, hubs[..n + 1], net) == RunState(s.fleets, before.count + if s.synced then 1 else 0)
    ensures Queries(hubs[..n + 1]) == Queries(hubs[..n]) + [Lookup(hubs[n], "fleetCode")]
  {
    assert hubs[..n + 1][..n] == hubs[..n];
  }

  // ---------------------------------------------------------------------
  // Properties

  /** `isMobility` is true exactly when the record's `Class` is "MB". */
  lemma MobilityIff(code: Value, data: Row)
    ensures FleetFields(code, data)["isMobility"] == Bool(true) <==> "Class" in data && data["Class"] == "MB"
    ensures FleetFields(code, data)["isMobility"] == Bool(false) <==> !("Class" in data && data["Class"] == "MB")
  {
  }

  /** The upsert writes the fleet code and each customer field the record
      has under its fleet name. */
  lemma FleetFieldsCopied(code: Value, data: Row)
    ensures var d := FleetFields(code, data);
      Lookup(d, "fleetCode") == code && Lookup(d, "fleetName") == Field(data, "Name1") &&
      Lookup(d, "pinCode") == Field(data, "Pincode") && Lookup(d, "address") == Field(data, "Address")
  {
    var m := FleetRaw(code, data);
    assert m["fleetCode"] == code;
    assert m["fleetName"] == Field(data, "Name1");
    assert m["pinCode"] == Field(data, "Pincode");
    assert m["address"] == Field(data, "Address");
    LookupDefined(m, "fleetCode");
    LookupDefined(m, "fleetName");
    LookupDefined(m, "pinCode");
    LookupDefined(m, "address");
  }

  lemma FleetFieldsContact(code: Value, data: Row)
    ensures var d := FleetFields(code, data);
      Lookup(d, "city") == Field(data, "City1") && Lookup(d, "mobile") == Field(data, "Mobile") &&
      Lookup(d, "gstNo") == Field(data, "GstNo") && Lookup(d, "Vkbur") == Field(data, "Vkbur")
  {
    var m := FleetRaw(code, data);
    assert m["city"] == Field(data, "City1");
    assert m["mobile"] == Field(data, "Mobile");
    assert m["gstNo"] == Field(data, "GstNo");
    assert m["Vkbur"] == Field(data, "Vkbur");
    LookupDefined(m, "city");
    LookupDefined(m, "mobile");
    LookupDefined(m, "gstNo");
    LookupDefined(m, "Vkbur");
  }

  /** A hub is counted exactly when its reply carried at least one row and
      `save`, if it ran, accepted the fleet; an uncounted hub changes
      nothing. */
  lemma StepCounted(fleets: Collection<Value>, hub: Doc, reply: Attempt)
    ensures var code, id := Lookup(hub, "fleetCode"), Lookup(hub, "_id");
      var g := Try(Default2xx, reply);
      FleetStep(fleets, hub, reply).synced <==>
        g.Got? && g.resp.body.Results? && g.resp.body.rows != [] &&
        (MustPush(fleets, code, id) ==> Schemas.FleetValid(Pushed(fleets[code], id)))
    ensures !FleetStep(fleets, hub, reply).synced ==> FleetStep(fleets, hub, reply).fleets == fleets
  {
  }

  /** Only the hub's own fleet is touched. */
  lemma StepFrame(fleets: Collection<Value>, hub: Doc, reply: Attempt, k: Value)
    requires k != Lookup(hub, "fleetCode")
    ensures var c := FleetStep(fleets, hub, reply).fleets;
      (k in c <==> k in fleets) && (k in fleets ==> c[k] == fleets[k])
  {
  }

  /** After a counted hub its fleet lists the hub: for a fleet `findOne`
      found, the list is the old one with the id added if missing; for a
      new fleet it is just the id. The fleet is visible either way. */
  lemma HubLinked(fleets: Collection<Value>, hub: Doc, reply: Attempt)
    requires FleetStep(fleets, hub, reply).synced
    ensures var code, id := Lookup(hub, "fleetCode"), Lookup(hub, "_id");
      var c := FleetStep(fleets, hub, reply).fleets;
      code in c && Visible(c[code]) && "hubs" in c[code] &&
      (Found(fleets, code) ==> Items(c[code]["hubs"]) == AddToSet(Items(Lookup(fleets[code], "hubs")), id)) &&
      (!Found(fleets, code) ==> c[code]["hubs"] == List([id]))
  {
    var code, id := Lookup(hub, "fleetCode"), Lookup(hub, "_id");
    var data := Try(Default2xx, reply).resp.body.rows[0];
    var op := FleetOp(code, id, data, Found(fleets, code));
    var saved := if MustPush(fleets, code, id) then fleets[code := Pushed(fleets[code], id)] else fleets;
    if Found(fleets, code) {
      assert code in saved && Visible(saved[code]) && Matches(op.filter, saved[code]);
      assert Apply(saved, op)[code] == saved[code] + op.update;
      VisibleUnion(saved[code], op.update);
      if MustPush(fleets, code, id) {
        assert Items(saved[code]["hubs"]) == Items(Lookup(fleets[code], "hubs")) + [id];
      } else {
        assert "hubs" in fleets[code] by {
          assert id in Items(Lookup(fleets[code], "hubs"));
        }
      }
    } else {
      VisibleUnion(op.insert, op.update);
    }
  }

  /** Every fleet's hub list is free of duplicates. */
  predicate HubsNoDup(c: Collection<Value>)
  {
    forall k :: k in c ==> NoDup(Items(Lookup(c[k], "hubs")))
  }

  lemma StepKeepsNoDup(fleets: Collection<Value>, hub: Doc, reply: Attempt)
    requires HubsNoDup(fleets)
    ensures HubsNoDup(FleetStep(fleets, hub, reply).fleets)
  {
    var c := FleetStep(fleets, hub, reply).fleets;
    var code := Lookup(hub, "fleetCode");
    forall k | k in c ensures NoDup(Items(Lookup(c[k], "hubs"))) {
      if k != code {
        StepFrame(fleets, hub, reply, k);
      } else if FleetStep(fleets, hub, reply).synced {
        HubLinked(fleets, hub, reply);
      }
    }
  }

  /** The run never puts a hub twice into a fleet's list. */
  lemma {:induction false} RunKeepsNoDup(fleets: Collection<Value>, hubs: seq<Doc>, net: nat -> Attempt)
    requires HubsNoDup(fleets)
    ensures HubsNoDup(Run(fleets, hubs, net).fleets)
    decreases |hubs|
  {
    if hubs != [] {
      var n := |hubs| - 1;
      RunKeepsNoDup(fleets, hubs[..n], net);
      StepKeepsNoDup(Run(fleets, hubs[..n], net).fleets, hubs[n], net(n));
    }
  }

  /** Processing the same hub with the same reply a second time changes
      nothing: the hub is already listed and the fields already hold. */
  lemma StepIdempotent(fleets: Collection<Value>, hub: Doc, reply: Attempt)
    ensures var once := FleetStep(fleets, hub, reply).fleets;
      FleetStep(once, hub, reply).fleets == once
  {
    var s := FleetStep(fleets, hub, reply);
    if s.synced {
      var code, id := Lookup(hub, "fleetCode"), Lookup(hub, "_id");
      var data := Try(Default2xx, reply).resp.body.rows[0];
      HubLinked(fleets, hub, reply);
      var once := s.fleets;
      assert Found(once, code) && !MustPush(once, code, id);
      var op := FleetOp(code, id, data, true);
      LastUpdateHolds(fleets, hub, reply);
      ReApply(once, op);
      assert FleetStep(once, hub, reply).fleets == Apply(once, op);
    }
  }

  /** After a counted hub, the fleet holds every field of the upsert's
      fleet part. */
  lemma LastUpdateHolds(fleets: Collection<Value>, hub: Doc, reply: Attempt)
    requires FleetStep(fleets, hub, reply).synced
    ensures var code := Lookup(hub, "fleetCode");
      var c := FleetStep(fleets, hub, reply).fleets;
      code in c && SubDoc(FleetFields(code, Try(Default2xx, reply).resp.body.rows[0]), c[code])
  {
    var code, id := Lookup(hub, "fleetCode"), Lookup(hub, "_id");
    var data := Try(Default2xx, reply).resp.body.rows[0];
    var ff := FleetFields(code, data);
    var prev := FleetOp(code, id, data, Found(fleets, code));
    var saved := if MustPush(fleets, code, id) then fleets[code := Pushed(fleets[code], id)] else fleets;
    var base := if code in saved && Matches(prev.filter, saved[code]) then saved[code] else prev.insert;
    assert FleetStep(fleets, hub, reply).fleets[code] == base + prev.update;
    assert SubDoc(ff, prev.update);
  }

  /** An upsert whose fields a matched document already holds leaves the
      collection as it is. */
  lemma ReApply(c: Collection<Value>, op: Upsert<Value>)
    requires op.key in c && Matches(op.filter, c[op.key]) && SubDoc(op.update, c[op.key])
    ensures Apply(c, op) == c
  {
    assert c[op.key] + op.update == c[op.key];
  }

  /** With no rows for any hub the run writes nothing and counts nothing. */
  lemma {:induction false} NoRowsNoWrites(fleets: Collection<Value>, hubs: seq<Doc>, net: nat -> Attempt)
    requires forall i :: 0 <= i < |hubs| ==> net(i).Reply? && net(i).resp.body == Results([])
    ensures Run(fleets, hubs, net) == RunState(fleets, 0)
    decreases |hubs|
  {
    if hubs != [] {
      NoRowsNoWrites(fleets, hubs[..|hubs| - 1], net);
    }
  }

  /** A fleet the run creates carries the schema defaults, the hub and the
      record's `isMobility`. */
  lemma NewFleetDefaults(fleets: Collection<Value>, hub: Doc, reply: Attempt)
    requires FleetStep(fleets, hub, reply).synced && Lookup(hub, "fleetCode") !in fleets
    ensures var code := Lookup(hub, "fleetCode");
      var d := FleetStep(fleets, hub, reply).fleets[code];
      var data := Try(Default2xx, reply).resp.body.rows[0];
      d["enableReplacementWithoutInspection"] == Bool(false) && d["canCreateOrder"] == Bool(true) &&
      d["active"] == Bool(true) && d["hubs"] == List([Lookup(hub, "_id")]) &&
      d["isMobility"] == Bool(Field(data, "Class") == Str("MB"))
  {
    var code, id := Lookup(hub, "fleetCode"), Lookup(hub, "_id");
    var data := Try(Default2xx, reply).resp.body.rows[0];
    var op := FleetOp(code, id, data, false);
    var f := FleetFields(code, data);
    FleetFieldsKeys(code, data);
    var m := FleetRaw(code, data);
    assert m["isMobility"] == Bool(Field(data, "Class") == Str("MB"));
    LookupDefined(m, "isMobility");
    assert op.update == f + map["hubs" := List([id])];
    var ins := Put(Schemas.FleetDefaults, "fleetCode", code);
    assert ins["enableReplacementWithoutInspection"] == Bool(false) && ins["canCreateOrder"] == Bool(true);
    assert ins["active"] == Bool(true);
    assert !Found(fleets, code) && !MustPush(fleets, code, id);
    assert FleetStep(fleets, hub, reply).fleets == fleets[code := ins + op.update];
  }
}
