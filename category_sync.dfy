/** `syncCategoryMaster`: fetch CatMstSet once and upsert every record by
    `CatCode` from an async `forEach`, marking the log successful when the
    callback of the last index has written. The callbacks run one after
    another here, in index order. */
module CategorySync {
  import opened Store
  import opened Http
  import opened SyncLogs

  const DefaultAction := "sync_category_master"

  /** The update object as written, `undefined` values included. */
  function CategoryRaw(val: Row): Doc
  {
    map["Mandt" := Field(val, "Mandt"), "CatCode" := Field(val, "CatCode"), "Ydesc" := Field(val, "Ydesc"),
        "CompInd" := Field(val, "CompInd"), "Division" := Field(val, "Division"), "SymId" := Field(val, "SymId"),
        "SelectionGrouping" := Field(val, "SelectionGrouping"),
        "DashboardGrouping" := Field(val, "DashboardGrouping"), "deleted" := Bool(false)]
  }

  /** `findOneAndUpdate({ CatCode }, fields, { upsert: true })`; the schema
      has no `find` hook, so every document under the code matches. */
  function CategoryOp(val: Row): (op: Upsert<Value>)
    ensures op.key == Field(val, "CatCode") && op.filter == AnyDoc && OpKeyed(op, "CatCode")
  {
    var code := Field(val, "CatCode");
    LookupDefined(CategoryRaw(val), "CatCode");
    Upsert(code, AnyDoc, Put(map[], "CatCode", code), Defined(CategoryRaw(val)))
  }

  function CategoryOps(recs: seq<Row>): (ops: seq<Upsert<Value>>)
    ensures |ops| == |recs| && forall i :: 0 <= i < |recs| ==> ops[i] == CategoryOp(recs[i])
  {
    seq(|recs|, i requires 0 <= i < |recs| => CategoryOp(recs[i]))
  }

  /** How the returned promise ends: it resolves, it rejects with a
      message, it never settles, or the log's `create` rejects first.
      `Crashes` is a rejection nothing handles (of the async executor or of
      a `forEach` callback): on Node 15 and later the process exits with it. */
  datatype Ending = Resolves | Rejects(message: string) | NeverSettles | CreateFailed | Crashes

  /** The callbacks' outcome as written, the callbacks running in index
      order: only the callback of the last index calls `resolve`, after its
      own upsert; a failed upsert rejects its own callback's promise first. */
  function Settlement(n: nat, lands: nat -> bool): (e: Ending)
    ensures e == NeverSettles <==> n == 0
    ensures e == Resolves <==> n > 0 && forall k: nat :: k < n ==> lands(k)
    ensures e == Resolves || e == NeverSettles || e == Crashes
  {
    if n == 0 then NeverSettles else if FirstUnlanded(lands, n) < n then Crashes else Resolves
  }

  /** The category job's run as written. `eventCode` and `user` come from
      the request (`None` when the job calls it without one); `reply` is the
      CatMstSet answer to the single request; `lands(i)` says whether record
      i's upsert succeeded. Every upsert is issued before any settles, so
      each one that succeeds lands even when another fails. The fetch and
      the `forEach` run inside the async promise executor, so their errors
      never reach the `catch`: they crash the process and leave the log
      `pending`. */
  method SyncCategoryMaster(categories: Collection<Value>, eventCode: Option<string>, user: Option<string>,
                            reply: Attempt, lands: nat -> bool)
    returns (categories': Collection<Value>, log: Option<SyncLog>, ending: Ending)
    ensures var action := if eventCode.Some? then eventCode.value else DefaultAction;
      var g := Try(Default2xx, reply);
      if action == "" then categories' == categories && log.None? && ending == CreateFailed
      else if g.Got? && g.resp.body.Results? then
        var recs := g.resp.body.rows;
        categories' == ApplyAll(categories, Landed(CategoryOps(recs), lands)) &&
        ending == Settlement(|recs|, lands) &&
        log == Some(if ending == Resolves then Create(action, user).(status := Successful) else Create(action, user))
      else
        categories' == categories && log == Some(Create(action, user)) && ending == Crashes
  {
    var action := if eventCode.Some? then eventCode.value else DefaultAction;
    categories' := categories;
    if action == "" {
      log := None;
      ending := CreateFailed;
      return;
    }
    var entry := Create(action, user);
    log := Some(entry);
    var g := Try(Default2xx, reply);
    if g.Threw? || !g.resp.body.Results? {
      ending := Crashes;
      return;
    }
    categories', log, ending := RunCallbacks(categories, g.resp.body.rows, lands, entry);
  }

  /** Every one of the first `n` upserts succeeds. */
  predicate AllLand(lands: nat -> bool, n: nat)
  {
    forall k: nat :: k < n ==> lands(k)
  }

  lemma AllLandStep(lands: nat -> bool, n: nat)
    ensures AllLand(lands, n + 1) <==> AllLand(lands, n) && lands(n)
  {
  }

  /** The `forEach` callbacks, in index order, against a log `entry`. */
  method RunCallbacks(categories: Collection<Value>, recs: seq<Row>, lands: nat -> bool, entry: SyncLog)
    returns (categories': Collection<Value>, log: Option<SyncLog>, ending: Ending)
    ensures categories' == ApplyAll(categories, Landed(CategoryOps(recs), lands))
    ensures ending == Settlement(|recs|, lands)
    ensures log == Some(if ending == Resolves then entry.(status := Successful) else entry)
  {
    var ops := CategoryOps(recs);
    categories' := categories;
    log := Some(entry);
    var crashed := false;
    var index := 0;
    while index < |recs|
      invariant 0 <= index <= |recs|
      invariant categories' == ApplyAll(categories, Landed(ops[..index], lands))
      invariant !crashed <==> AllLand(lands, index)
      invariant log == Some(if index > 0 && index == |recs| && !crashed then entry.(status := Successful) else entry)
    {
      LandedStep(categories, ops, lands, index);
      AllLandStep(lands, index);
      if lands(index) {
        categories' := Apply(categories', ops[index]);
        if index + 1 == |recs| && !crashed {
          log := Some(entry.(status := Successful));
        }
      } else {
        crashed := true;
      }
      index := index + 1;
    }
    ending := if crashed then Crashes else if index == 0 then NeverSettles else Resolves;
    assert ops[..|recs|] == ops;
  }

  /** The same run with the promise settling on every path: after the last
      upsert whether or not any record was returned, and with a failed log
      and a rejection when the fetch throws. */
  method SyncCategoryMasterSettled(categories: Collection<Value>, eventCode: Option<string>, user: Option<string>,
                                   reply: Attempt, lands: nat -> bool)
    returns (categories': Collection<Value>, log: Option<SyncLog>, ending: Ending)
    ensures ending != NeverSettles && ending != Crashes
    ensures log.Some? ==> log.value.status != Pending
    ensures var action := if eventCode.Some? then eventCode.value else DefaultAction;
      var g := Try(Default2xx, reply);
      if action == "" then categories' == categories && log.None? && ending == CreateFailed
      else if g.Got? && g.resp.body.Results? then
        categories' == ApplyAll(categories, Landed(CategoryOps(g.resp.body.rows), lands)) &&
        log == Some(Create(action, user).(status := Successful)) && ending == Resolves
      else
        var msg := if g.Threw? then Message(g.err) else BadShape;
        categories' == categories && log == Some(Fail(Create(action, user), msg)) && ending == Rejects(msg)
  {
    var action := if eventCode.Some? then eventCode.value else DefaultAction;
    categories' := categories;
    if action == "" {
      log := None;
      ending := CreateFailed;
      return;
    }
    var entry := Create(action, user);
    var g := Try(Default2xx, reply);
    if g.Threw? || !g.resp.body.Results? {
      var msg := if g.Threw? then Message(g.err) else BadShape;
      log := Some(Fail(entry, msg));
      ending := Rejects(msg);
      return;
    }
    var ops := CategoryOps(g.resp.body.rows);
    var k := 0;
    while k < |ops|
      invariant 0 <= k <= |ops|
      invariant categories' == ApplyAll(categories, Landed(ops[..k], lands))
    {
      LandedStep(categories, ops, lands, k);
      if lands(k) {
        categories' := Apply(categories', ops[k]);
      }
      k := k + 1;
    }
    assert ops[..|ops|] == ops;
    log := Some(entry.(status := Successful));
    ending := Resolves;
  }

  /** The message the corrected run logs for a reply without `d.results`. */
  const BadShape := "Invalid response from SAP CatMstSet endpoint"

  // ---------------------------------------------------------------------
  // Properties

  /** As written, an empty CatMstSet answer leaves the promise pending
      forever and the log `pending`, while one failed upsert among any
      number crashes the run, the last upsert landing or not. */
  lemma EmptyNeverSettles(lands: nat -> bool, n: nat, k: nat)
    ensures Settlement(0, lands) == NeverSettles
    ensures k < n && !lands(k) ==> Settlement(n, lands) == Crashes
    ensures Settlement(n, lands) == Crashes ==>
      FirstUnlanded(lands, n) < n && !lands(FirstUnlanded(lands, n))
  {
  }

  /** The update sets each category field the record has, `deleted: false`,
      and nothing else. */
  lemma CategoryFields(val: Row)
    ensures var u := CategoryOp(val).update;
      Lookup(u, "deleted") == Bool(false) && Lookup(u, "CatCode") == Field(val, "CatCode") &&
      Lookup(u, "Mandt") == Field(val, "Mandt") && Lookup(u, "Ydesc") == Field(val, "Ydesc")
  {
    var m := CategoryRaw(val);
    assert m["deleted"] == Bool(false) && m["CatCode"] == Field(val, "CatCode");
    assert m["Mandt"] == Field(val, "Mandt") && m["Ydesc"] == Field(val, "Ydesc");
    LookupDefined(m, "deleted");
    LookupDefined(m, "CatCode");
    LookupDefined(m, "Mandt");
    LookupDefined(m, "Ydesc");
  }

  lemma CategoryGroupings(val: Row)
    ensures var u := CategoryOp(val).update;
      Lookup(u, "CompInd") == Field(val, "CompInd") && Lookup(u, "Division") == Field(val, "Division") &&
      Lookup(u, "SymId") == Field(val, "SymId") && Lookup(u, "SelectionGrouping") == Field(val, "SelectionGrouping") &&
      Lookup(u, "DashboardGrouping") == Field(val, "DashboardGrouping")
  {
    var m := CategoryRaw(val);
    assert m["CompInd"] == Field(val, "CompInd") && m["Division"] == Field(val, "Division");
    assert m["SymId"] == Field(val, "SymId") && m["SelectionGrouping"] == Field(val, "SelectionGrouping");
    assert m["DashboardGrouping"] == Field(val, "DashboardGrouping");
    LookupDefined(m, "CompInd");
    LookupDefined(m, "Division");
    LookupDefined(m, "SymId");
    LookupDefined(m, "SelectionGrouping");
    LookupDefined(m, "DashboardGrouping");
  }

  /** When every upsert lands, each record no later record overrides is
      stored under its code with its fields, and the collection stays keyed
      by `CatCode`. */
  lemma CategoryRecordStored(categories: Collection<Value>, recs: seq<Row>, i: nat, lands: nat -> bool)
    requires forall k: nat :: k < |recs| ==> lands(k)
    requires i < |recs| && forall j :: i < j < |recs| ==> Field(recs[j], "CatCode") != Field(recs[i], "CatCode")
    ensures var c := ApplyAll(categories, Landed(CategoryOps(recs), lands));
      Field(recs[i], "CatCode") in c && SubDoc(CategoryOp(recs[i]).update, c[Field(recs[i], "CatCode")])
  {
    var ops := CategoryOps(recs);
    LandedEvery(ops, lands);
    assert Uniform(ops, AnyDoc);
    LastWriteWins(categories, ops, AnyDoc, i);
  }

  lemma CategorySnapshot(categories: Collection<Value>, recs: seq<Row>, lands: nat -> bool)
    requires KeyedBy(categories, "CatCode") && forall k: nat :: k < |recs| ==> lands(k)
    ensures var once := ApplyAll(categories, Landed(CategoryOps(recs), lands));
      KeyedBy(once, "CatCode") && ApplyAll(once, Landed(CategoryOps(recs), lands)) == once
  {
    var ops := CategoryOps(recs);
    LandedEvery(ops, lands);
    assert Uniform(ops, AnyDoc);
    ApplyAllKeyed(categories, ops, "CatCode");
    Idempotent(categories, ops, AnyDoc);
  }
}
