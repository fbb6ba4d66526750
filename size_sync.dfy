/** `syncSizeMaster`: fetch SizeMstSet, upsert each size by its code, and
    copy the trimmed size description into every product of that size and
    category. Two writes are queued per record, size first, and the
    product-side `modifiedCount`s are summed. */
module SizeSync {
  import opened Store
  import opened Http
  import opened SyncLogs
  import Text

  const Action := "sync_size_master"
  const Retries := 3
  const InitialDelayMs := 1000
  const InvalidResponse := "Invalid response from SAP SizeMstSet endpoint"

  // ---------------------------------------------------------------------
  // The two writes of a record

  /** `findOneAndUpdate({ ZsizeCd }, { $set: { ZsizeCd, Ydesc: Desc1,
      CatCode } }, { upsert: true })`: the description is stored as sent,
      untrimmed. */
  function SizeOp(val: Row): (op: Upsert<Value>)
    ensures op.key == Field(val, "ZsizeCd") && op.filter == AnyDoc && OpKeyed(op, "ZsizeCd")
    ensures op.update.Keys <= {"ZsizeCd", "Ydesc", "CatCode"}
    ensures Lookup(op.update, "Ydesc") == Field(val, "Desc1") && Lookup(op.update, "CatCode") == Field(val, "CatCode")
  {
    var code := Field(val, "ZsizeCd");
    Upsert(code, AnyDoc, Put(map[], "ZsizeCd", code),
           Put(Put(Put(map[], "ZsizeCd", code), "Ydesc", Field(val, "Desc1")), "CatCode", Field(val, "CatCode")))
  }

  /** The product filter `{ $and: [{ prodSize: ZsizeCd }, { Catcode: CatCode }] }`.
      A code the record lacks reads as `undefined` and matches products
      without that field. */
  predicate Selects(d: Doc, size: Value, cat: Value)
  {
    Lookup(d, "prodSize") == size && Lookup(d, "Catcode") == cat
  }

  /** `updateMany(filter, { $set: { tyreSize } })` on the products. */
  function SetTyreSize(products: Collection<Value>, size: Value, cat: Value, tyreSize: string): (c: Collection<Value>)
    ensures c.Keys == products.Keys
    ensures forall k :: k in products && Selects(products[k], size, cat) ==>
      c[k] == products[k]["tyreSize" := Str(tyreSize)]
    ensures forall k :: k in products && !Selects(products[k], size, cat) ==> c[k] == products[k]
  {
    map k | k in products :: if Selects(products[k], size, cat) then products[k]["tyreSize" := Str(tyreSize)] else products[k]
  }

  /** `modifiedCount` of the `updateMany`: every selected product. The
      product schema has `timestamps: true`, so the update also sets
      `updatedAt`, which changes each matched document even when its
      `tyreSize` already has the value. */
  function Modified(products: Collection<Value>, size: Value, cat: Value): (n: nat)
    ensures n == 0 <==> forall k :: k in products ==> !Selects(products[k], size, cat)
  {
    var matched := set k | k in products && Selects(products[k], size, cat);
    assert forall k :: k in products && Selects(products[k], size, cat) ==> k in matched;
    |matched|
  }

  /** What an operation resolves to: the size document, whose
      `modifiedCount` reads as `undefined`, or the `updateMany` result. */
  datatype WriteResult = SizeDocument | UpdateResult(modifiedCount: nat)

  /** `Desc1`. A record without it never has its product update queued,
      since the `forEach` throws on it first; it reads as empty here only so
      that the functions over queued records are total. */
  function Desc(r: Row): string
  {
    if "Desc1" in r then r["Desc1"] else ""
  }

  /** Index of the first record without `Desc1`, or the record count. */
  function FirstWithoutDesc(data: seq<Row>): (m: nat)
    ensures m <= |data| && (forall i :: 0 <= i < m ==> "Desc1" in data[i])
    ensures m < |data| ==> "Desc1" !in data[m]
    decreases |data|
  {
    if data == [] then 0
    else if "Desc1" !in data[0] then 0
    else
      var m := FirstWithoutDesc(data[1..]);
      assert forall i :: 1 <= i < m + 1 ==> data[i] == data[1..][i - 1];
      1 + m
  }

  /** The size upserts of the given records, in order. */
  function SizeOps(recs: seq<Row>): (ops: seq<Upsert<Value>>)
  {
    seq(|recs|, k requires 0 <= k < |recs| => SizeOp(recs[k]))
  }

  /** The products after the tyre-size updates of records that all carry
      `Desc1`, in order. */
  function TyreRun(products: Collection<Value>, recs: seq<Row>): (c: Collection<Value>)
    requires forall i :: 0 <= i < |recs| ==> "Desc1" in recs[i]
    ensures c.Keys == products.Keys
    decreases |recs|
  {
    if recs == [] then products
    else
      var n := |recs| - 1;
      SetTyreSize(TyreRun(products, recs[..n]), Field(recs[n], "ZsizeCd"), Field(recs[n], "CatCode"), Text.Trim(recs[n]["Desc1"]))
  }

  /** The `Promise.all` results of the records' writes, size first and then
      products, record by record. */
  function Results(products: Collection<Value>, recs: seq<Row>): (rs: seq<WriteResult>)
    requires forall i :: 0 <= i < |recs| ==> "Desc1" in recs[i]
    ensures |rs| == 2 * |recs|
    decreases |recs|
  {
    if recs == [] then []
    else
      var n := |recs| - 1;
      var r := recs[n];
      Results(products, recs[..n]) +
        [SizeDocument, UpdateResult(Modified(TyreRun(products, recs[..n]), Field(r, "ZsizeCd"), Field(r, "CatCode")))]
  }

  /** The sum of the product updates' `modifiedCount`s. */
  function ModifiedSum(products: Collection<Value>, recs: seq<Row>): nat
    requires forall i :: 0 <= i < |recs| ==> "Desc1" in recs[i]
    decreases |recs|
  {
    if recs == [] then 0
    else
      var n := |recs| - 1;
      var r := recs[n];
      ModifiedSum(products, recs[..n]) + Modified(TyreRun(products, recs[..n]), Field(r, "ZsizeCd"), Field(r, "CatCode"))
  }

  /** How much a result adds to `productsUpdated`: `modifiedCount || 0`. */
  function Count(r: WriteResult): nat
  {
    if r.UpdateResult? then r.modifiedCount else 0
  }

  /** The sum over the odd positions 1, 3, 5, ... */
  function OddSum(rs: seq<WriteResult>): nat
    decreases |rs|
  {
    if |rs| < 2 then 0 else Count(rs[1]) + OddSum(rs[2..])
  }

  /** The sum over every position. */
  function TotalSum(rs: seq<WriteResult>): nat
    decreases |rs|
  {
    if rs == [] then 0 else Count(rs[0]) + TotalSum(rs[1..])
  }

  // ---------------------------------------------------------------------
  // The run

  /** The two Mongoose queries a record queues, kept together: query 2k,
      the size upsert, and query 2k + 1, the `updateMany` of the products.
      Nothing runs until `Promise.all` awaits them. */
  datatype Queued = Queued(sizeOp: Upsert<Value>, size: Value, cat: Value, tyreSize: string)

  /** A record's queries. */
  function QueuedOf(r: Row): Queued
  {
    Queued(SizeOp(r), Field(r, "ZsizeCd"), Field(r, "CatCode"), Text.Trim(Desc(r)))
  }

  /** The queries the `forEach` queues, record by record. */
  function Queries(recs: seq<Row>): (qs: seq<Queued>)
    ensures |qs| == |recs|
  {
    seq(|recs|, k requires 0 <= k < |recs| => QueuedOf(recs[k]))
  }

  lemma QueriesStep(data: seq<Row>, i: nat)
    requires i < |data|
    ensures Queries(data[..i + 1]) == Queries(data[..i]) + [QueuedOf(data[i])]
  {
  }

  /** The `forEach`: it queues both queries of each record and throws on the
      first record without `Desc1`, before any query has run. */
  method Queue(data: seq<Row>) returns (queued: seq<Queued>, thrown: bool)
    ensures thrown <==> FirstWithoutDesc(data) < |data|
    ensures !thrown ==> queued == Queries(data)
  {
    var m := FirstWithoutDesc(data);
    queued, thrown := [], false;
    var i := 0;
    while i < |data|
      invariant 0 <= i <= m && queued == Queries(data[..i])
    {
      var val := data[i];
      if "Desc1" !in val {
        thrown := true;
        return;
      }
      QueriesStep(data, i);
      queued := queued + [Queued(SizeOp(val), Field(val, "ZsizeCd"), Field(val, "CatCode"), Text.Trim(val["Desc1"]))];
      i := i + 1;
    }
    assert data[..|data|] == data;
  }

  /** The collections and the first rejection while `Promise.all` runs the
      queries. */
  datatype Settled = Settled(sizes: Collection<Value>, products: Collection<Value>, rejection: Option<string>)

  /** A failed query changes nothing and, if it is the first, becomes the
      rejection of `Promise.all`. */
  function Reject(st: Settled, fail: string): (st': Settled)
    ensures st'.sizes == st.sizes && st'.products == st.products
    ensures st'.rejection == if st.rejection.Some? then st.rejection else Some(fail)
  {
    st.(rejection := if st.rejection.Some? then st.rejection else Some(fail))
  }

  /** Query 2k: the size upsert, unless it fails. */
  function RunSize(st: Settled, q: Queued, fail: Option<string>): (st': Settled)
    ensures st'.products == st.products
  {
    if fail.Some? then Reject(st, fail.value)
    else st.(sizes := Apply(st.sizes, q.sizeOp))
  }

  /** Query 2k + 1: the product update, unless it fails. */
  function RunTyre(st: Settled, q: Queued, fail: Option<string>): (st': Settled)
    ensures st'.sizes == st.sizes
  {
    if fail.Some? then Reject(st, fail.value)
    else st.(products := SetTyreSize(st.products, q.size, q.cat, q.tyreSize))
  }

  /** `Promise.all(promises)`: every query runs, in queue order; `fails(j)`
      is the error of query j, if it fails. */
  function Settle(st: Settled, qs: seq<Queued>, fails: nat -> Option<string>): Settled
    decreases |qs|
  {
    if qs == [] then st
    else
      var k := |qs| - 1;
      RunTyre(RunSize(Settle(st, qs[..k], fails), qs[k], fails(2 * k)), qs[k], fails(2 * k + 1))
  }

  /** Record i's size upsert is query 2i; its product update is 2i + 1. */
  function SizeLands(fails: nat -> Option<string>): nat -> bool
  {
    (i: nat) => fails(2 * i).None?
  }

  function TyreLands(fails: nat -> Option<string>): nat -> bool
  {
    (i: nat) => fails(2 * i + 1).None?
  }

  /** The last record's two queries run after those before it. */
  lemma SettleLast(st: Settled, qs: seq<Queued>, fails: nat -> Option<string>)
    requires qs != []
    ensures var k := |qs| - 1;
      Settle(st, qs, fails) == RunTyre(RunSize(Settle(st, qs[..k], fails), qs[k], fails(2 * k)), qs[k], fails(2 * k + 1))
  {
  }

  /** The size upserts among the queued queries, in order. */
  function SizeOpsOf(qs: seq<Queued>): (ops: seq<Upsert<Value>>)
    ensures |ops| == |qs|
  {
    seq(|qs|, k requires 0 <= k < |qs| => qs[k].sizeOp)
  }

  /** The products after the queued updates that land: `lands(k)` says
      whether the k-th record's `updateMany` succeeded. */
  function UpdatesLanded(products: Collection<Value>, qs: seq<Queued>, lands: nat -> bool): (c: Collection<Value>)
    ensures c.Keys == products.Keys
    decreases |qs|
  {
    if qs == [] then products
    else
      var k := |qs| - 1;
      var before := UpdatesLanded(products, qs[..k], lands);
      if lands(k) then SetTyreSize(before, qs[k].size, qs[k].cat, qs[k].tyreSize) else before
  }

  /** `Promise.all` applies the size upserts that land. */
  lemma {:induction false} SettleSizes(st: Settled, qs: seq<Queued>, fails: nat -> Option<string>)
    ensures Settle(st, qs, fails).sizes == ApplyAll(st.sizes, Landed(SizeOpsOf(qs), SizeLands(fails)))
    decreases |qs|
  {
    if qs != [] {
      var k := |qs| - 1;
      SettleSizes(st, qs[..k], fails);
      SettleLast(st, qs, fails);
      assert SizeOpsOf(qs)[..k + 1] == SizeOpsOf(qs) && SizeOpsOf(qs)[..k] == SizeOpsOf(qs[..k]);
      LandedStep(st.sizes, SizeOpsOf(qs), SizeLands(fails), k);
    }
  }

  /** `Promise.all` applies the product updates that land. */
  lemma {:induction false} SettleProducts(st: Settled, qs: seq<Queued>, fails: nat -> Option<string>)
    ensures Settle(st, qs, fails).products == UpdatesLanded(st.products, qs, TyreLands(fails))
    decreases |qs|
  {
    if qs != [] {
      var k := |qs| - 1;
      SettleProducts(st, qs[..k], fails);
      SettleLast(st, qs, fails);
      assert TyreLands(fails)(k) == fails(2 * k + 1).None?;
    }
  }

  /** The rejection of `Promise.all` is the first failure. */
  lemma {:induction false} SettleRejection(st: Settled, qs: seq<Queued>, fails: nat -> Option<string>)
    requires st.rejection.None?
    ensures Settle(st, qs, fails).rejection == FirstFailure(fails, 2 * |qs|)
    decreases |qs|
  {
    if qs != [] {
      SettleRejection(st, qs[..|qs| - 1], fails);
      SettleLast(st, qs, fails);
    }
  }

  /** The queued size upserts are the records' own size upserts. */
  lemma QueuedSizeOps(recs: seq<Row>)
    ensures SizeOpsOf(Queries(recs)) == SizeOps(recs)
  {
  }

  /** When every update lands, the products are those of the plain run. */
  lemma {:induction false} UpdatesEvery(products: Collection<Value>, recs: seq<Row>, lands: nat -> bool)
    requires forall i :: 0 <= i < |recs| ==> "Desc1" in recs[i]
    requires forall i: nat :: i < |recs| ==> lands(i)
    ensures UpdatesLanded(products, Queries(recs), lands) == TyreRun(products, recs)
    decreases |recs|
  {
    if recs != [] {
      UpdatesEvery(products, recs[..|recs| - 1], lands);
      QueriesPrefix(recs);
    }
  }

  lemma QueriesPrefix(recs: seq<Row>)
    requires recs != []
    ensures var n := |recs| - 1;
      Queries(recs)[..n] == Queries(recs[..n]) && Queries(recs)[n] == QueuedOf(recs[n])
  {
  }

  /** `Promise.all` over the queued queries: the size upserts and product
      updates that land are applied and the rejection is the first
      failure. */
  lemma SettleQueries(sizes: Collection<Value>, products: Collection<Value>, recs: seq<Row>, fails: nat -> Option<string>)
    ensures var st := Settle(Settled(sizes, products, None), Queries(recs), fails);
      st.sizes == ApplyAll(sizes, Landed(SizeOps(recs), SizeLands(fails))) &&
      st.products == UpdatesLanded(products, Queries(recs), TyreLands(fails)) &&
      st.rejection == FirstFailure(fails, 2 * |recs|)
  {
    var st := Settled(sizes, products, None);
    SettleSizes(st, Queries(recs), fails);
    QueuedSizeOps(recs);
    SettleProducts(st, Queries(recs), fails);
    SettleRejection(st, Queries(recs), fails);
  }

  /** The strided `for (let i = 1; i < results.length; i += 2)` sum. */
  method CountUpdated(results: seq<WriteResult>) returns (productsUpdated: nat)
    ensures productsUpdated == OddSum(results)
  {
    productsUpdated := 0;
    var i := 1;
    while i < |results|
      invariant 1 <= i <= |results| + 1 && i % 2 == 1
      invariant productsUpdated + OddSum(results[i - 1..]) == OddSum(results)
    {
      assert results[i - 1..][1] == results[i];
      assert results[i - 1..][2..] == results[i + 1..];
      productsUpdated := productsUpdated + Count(results[i]);
      i := i + 2;
    }
  }

  /** Everything after the fetch: the `forEach` queues the queries, which
      `Promise.all` then runs; a throw in the `forEach` runs none of them.
      `rejection` is what the `try` catches, and `productsUpdated` the
      strided sum when nothing is caught. */
  method WriteAll(sizes: Collection<Value>, products: Collection<Value>, data: seq<Row>, trimError: string,
                  fails: nat -> Option<string>)
    returns (sizes': Collection<Value>, products': Collection<Value>, rejection: Option<string>, productsUpdated: nat)
    ensures if FirstWithoutDesc(data) < |data| then
        sizes' == sizes && products' == products && rejection == Some(trimError)
      else
        sizes' == ApplyAll(sizes, Landed(SizeOps(data), SizeLands(fails))) &&
        products' == UpdatesLanded(products, Queries(data), TyreLands(fails)) &&
        rejection == FirstFailure(fails, 2 * |data|) &&
        (rejection.None? ==>
          sizes' == ApplyAll(sizes, SizeOps(data)) && products' == TyreRun(products, data) &&
          productsUpdated == ModifiedSum(products, data))
  {
    sizes', products', productsUpdated := sizes, products, 0;
    var queued, thrown := Queue(data);
    if thrown {
      rejection := Some(trimError);
      return;
    }
    var st := Settle(Settled(sizes, products, None), queued, fails);
    SettleQueries(sizes, products, data, fails);
    sizes', products', rejection := st.sizes, st.products, st.rejection;
    if rejection.None? {
      LandedEvery(SizeOps(data), SizeLands(fails));
      UpdatesEvery(products, data, TyreLands(fails));
      // with every query landed, `Promise.all` resolves to the plain run's results
      productsUpdated := CountUpdated(Results(products, data));
      ProductsUpdatedTotal(products, data);
    }
  }

  /** The size job's run; `net` answers SizeMstSet, `trimError` is the
      TypeError text of `undefined.trim()` and `fails(j)` the error of the
      j-th queued query, if it fails. */
  method SyncSizeMaster(sizes: Collection<Value>, products: Collection<Value>, net: nat -> Attempt, trimError: string,
                        fails: nat -> Option<string>)
    returns (sizes': Collection<Value>, products': Collection<Value>, log: SyncLog, exit: Exit)
    ensures var g := Outcome(Retries, Default2xx, net);
      if g.Got? && g.resp.body.Results? then
        var data := g.resp.body.rows;
        if FirstWithoutDesc(data) < |data| then
          sizes' == sizes && products' == products && log == Fail(Create(Action, None), trimError) && exit == Raised(trimError)
        else
          var e := FirstFailure(fails, 2 * |data|);
          sizes' == ApplyAll(sizes, Landed(SizeOps(data), SizeLands(fails))) &&
          products' == UpdatesLanded(products, Queries(data), TyreLands(fails)) &&
          if e.None? then
            sizes' == ApplyAll(sizes, SizeOps(data)) && products' == TyreRun(products, data) &&
            log == Succeed(Create(Action, None), map["totalSizes" := |data|, "productsUpdated" := ModifiedSum(products, data)]) &&
            exit == Done
          else
            log == Fail(Create(Action, None), e.value) && exit == Raised(e.value)
      else
        var msg := if g.Got? then InvalidResponse else Message(g.err);
        sizes' == sizes && products' == products && log == Fail(Create(Action, None), msg) && exit == Raised(msg)
  {
    log := Create(Action, None);
    sizes', products' := sizes, products;
    var g, _, _ := RobustGet(Retries, InitialDelayMs, Default2xx, net);
    if g.Threw? {
      log := Fail(log, Message(g.err));
      exit := Raised(Message(g.err));
      return;
    }
    if !g.resp.body.Results? {
      log := Fail(log, InvalidResponse);
      exit := Raised(InvalidResponse);
      return;
    }
    var data := g.resp.body.rows;
    var rejection, productsUpdated;
    sizes', products', rejection, productsUpdated := WriteAll(sizes, products, data, trimError, fails);
    if rejection.Some? {
      log := Fail(log, rejection.value);
      exit := Raised(rejection.value);
      return;
    }
    log := Succeed(log, map["totalSizes" := |data|, "productsUpdated" := productsUpdated]);
    exit := Done;
  }

  // ---------------------------------------------------------------------
  // Properties

  /** Record i's size result sits at 2i and its product update's result at
      2i + 1. */
  lemma {:induction false} ResultsLayout(products: Collection<Value>, recs: seq<Row>)
    requires forall i :: 0 <= i < |recs| ==> "Desc1" in recs[i]
    ensures forall i :: 0 <= i < |recs| ==> Results(products, recs)[2 * i] == SizeDocument && Results(products, recs)[2 * i + 1].UpdateResult?
    decreases |recs|
  {
    if recs != [] {
      var n := |recs| - 1;
      var pre := recs[..n];
      assert forall i :: 0 <= i < |pre| ==> "Desc1" in pre[i];
      ResultsLayout(products, pre);
      var rs, front := Results(products, recs), Results(products, pre);
      assert rs[..2 * n] == front;
      forall i | 0 <= i < |recs|
        ensures rs[2 * i] == SizeDocument && rs[2 * i + 1].UpdateResult?
      {
        if i < n {
          assert rs[2 * i] == front[2 * i] && rs[2 * i + 1] == front[2 * i + 1];
        }
      }
    }
  }

  /** With the size results, which carry no `modifiedCount`, at the even
      positions, the strided sum is the sum of every result. */
  lemma {:induction false} OddSumIsTotal(rs: seq<WriteResult>)
    requires forall k :: 0 <= k < |rs| && k % 2 == 0 ==> rs[k] == SizeDocument
    ensures OddSum(rs) == TotalSum(rs)
    decreases |rs|
  {
    if |rs| >= 2 {
      forall k | 0 <= k < |rs[2..]| && k % 2 == 0 ensures rs[2..][k] == SizeDocument {
        assert rs[2..][k] == rs[k + 2];
      }
      OddSumIsTotal(rs[2..]);
      assert rs[1..][1..] == rs[2..];
    } else if |rs| == 1 {
      assert rs[1..] == [];
    }
  }

  lemma {:induction false} TotalSumConcat(a: seq<WriteResult>, b: seq<WriteResult>)
    ensures TotalSum(a + b) == TotalSum(a) + TotalSum(b)
    decreases |a|
  {
    if a != [] {
      assert (a + b)[1..] == a[1..] + b;
      TotalSumConcat(a[1..], b);
    } else {
      assert a + b == b;
    }
  }

  lemma {:induction false} TotalIsModified(products: Collection<Value>, recs: seq<Row>)
    requires forall i :: 0 <= i < |recs| ==> "Desc1" in recs[i]
    ensures TotalSum(Results(products, recs)) == ModifiedSum(products, recs)
    decreases |recs|
  {
    if recs != [] {
      var n := |recs| - 1;
      var r := recs[n];
      TotalIsModified(products, recs[..n]);
      var x := Modified(TyreRun(products, recs[..n]), Field(r, "ZsizeCd"), Field(r, "CatCode"));
      var tail := [SizeDocument, UpdateResult(x)];
      assert Results(products, recs) == Results(products, recs[..n]) + tail;
      TotalSumConcat(Results(products, recs[..n]), tail);
      assert tail[1..] == [UpdateResult(x)] && tail[1..][1..] == [];
      assert TotalSum(tail[1..][1..]) == 0;
      assert TotalSum(tail[1..]) == x;
    }
  }

  /** `productsUpdated` of a run without a throw is the total of the
      product updates' `modifiedCount`s. */
  lemma ProductsUpdatedTotal(products: Collection<Value>, data: seq<Row>)
    requires forall i :: 0 <= i < |data| ==> "Desc1" in data[i]
    ensures OddSum(Results(products, data)) == ModifiedSum(products, data)
  {
    var rs := Results(products, data);
    ResultsLayout(products, data);
    forall k | 0 <= k < |rs| && k % 2 == 0 ensures rs[k] == SizeDocument {
      assert k == 2 * (k / 2);
    }
    OddSumIsTotal(rs);
    TotalIsModified(products, data);
  }

  /** A `tyreSize` update leaves `prodSize` and `Catcode` alone, so it
      changes no later update's `modifiedCount`. */
  lemma ModifiedKept(products: Collection<Value>, s: Value, c: Value, t: string, size: Value, cat: Value)
    ensures Modified(SetTyreSize(products, s, c, t), size, cat) == Modified(products, size, cat)
  {
    var after := SetTyreSize(products, s, c, t);
    forall k | k in products
      ensures Selects(after[k], size, cat) == Selects(products[k], size, cat)
    {
      assert Lookup(after[k], "prodSize") == Lookup(products[k], "prodSize");
      assert Lookup(after[k], "Catcode") == Lookup(products[k], "Catcode");
    }
    assert (set k | k in after && Selects(after[k], size, cat)) == (set k | k in products && Selects(products[k], size, cat));
  }

  lemma {:induction false} ModifiedAfterRun(products: Collection<Value>, recs: seq<Row>, size: Value, cat: Value)
    requires forall i :: 0 <= i < |recs| ==> "Desc1" in recs[i]
    ensures Modified(TyreRun(products, recs), size, cat) == Modified(products, size, cat)
    decreases |recs|
  {
    if recs != [] {
      var n := |recs| - 1;
      ModifiedAfterRun(products, recs[..n], size, cat);
      ModifiedKept(TyreRun(products, recs[..n]), Field(recs[n], "ZsizeCd"), Field(recs[n], "CatCode"), Text.Trim(recs[n]["Desc1"]), size, cat);
    }
  }

  /** The number of stored products each record's filter selects, summed
      over the records. */
  function MatchedSum(products: Collection<Value>, recs: seq<Row>): nat
    decreases |recs|
  {
    if recs == [] then 0
    else
      var n := |recs| - 1;
      MatchedSum(products, recs[..n]) + Modified(products, Field(recs[n], "ZsizeCd"), Field(recs[n], "CatCode"))
  }

  /** `productsUpdated` counts, for every record, every product its filter
      selects in the collection as it was before the run. */
  lemma {:induction false} ModifiedSumMatched(products: Collection<Value>, recs: seq<Row>)
    requires forall i :: 0 <= i < |recs| ==> "Desc1" in recs[i]
    ensures ModifiedSum(products, recs) == MatchedSum(products, recs)
    decreases |recs|
  {
    if recs != [] {
      var n := |recs| - 1;
      ModifiedSumMatched(products, recs[..n]);
      ModifiedAfterRun(products, recs[..n], Field(recs[n], "ZsizeCd"), Field(recs[n], "CatCode"));
    }
  }

  /** Re-running the same snapshot reports the same `productsUpdated`,
      although the products' `tyreSize`s no longer change. */
  lemma {:induction false} RerunCountsSame(products: Collection<Value>, recs: seq<Row>)
    requires forall i :: 0 <= i < |recs| ==> "Desc1" in recs[i]
    ensures ModifiedSum(TyreRun(products, recs), recs) == ModifiedSum(products, recs)
  {
    ModifiedSumMatched(products, recs);
    ModifiedSumMatched(TyreRun(products, recs), recs);
    MatchedAfterRun(products, recs, recs);
  }

  lemma {:induction false} MatchedAfterRun(products: Collection<Value>, run: seq<Row>, recs: seq<Row>)
    requires forall i :: 0 <= i < |run| ==> "Desc1" in run[i]
    ensures MatchedSum(TyreRun(products, run), recs) == MatchedSum(products, recs)
    decreases |recs|
  {
    if recs != [] {
      var n := |recs| - 1;
      MatchedAfterRun(products, run, recs[..n]);
      ModifiedAfterRun(products, run, Field(recs[n], "ZsizeCd"), Field(recs[n], "CatCode"));
    }
  }

  /** One write per record, keyed by size code: a record no later record
      shares its code with ends up stored with its code, raw description
      and category. */
  lemma SizeRecordStored(sizes: Collection<Value>, recs: seq<Row>, i: nat)
    requires i < |recs| && forall j :: i < j < |recs| ==> Field(recs[j], "ZsizeCd") != Field(recs[i], "ZsizeCd")
    ensures var c := ApplyAll(sizes, SizeOps(recs));
      var key := Field(recs[i], "ZsizeCd");
      key in c && SubDoc(SizeOp(recs[i]).update, c[key]) &&
      ("Desc1" in recs[i] ==> Lookup(c[key], "Ydesc") == Str(recs[i]["Desc1"])) &&
      ("CatCode" in recs[i] ==> Lookup(c[key], "CatCode") == Str(recs[i]["CatCode"]))
  {
    var ops := SizeOps(recs);
    assert Uniform(ops, AnyDoc);
    LastWriteWins(sizes, ops, AnyDoc, i);
  }

  /** The size collection stays keyed by size code, and re-applying the
      same snapshot changes nothing. */
  lemma SizesIdempotent(sizes: Collection<Value>, recs: seq<Row>)
    requires KeyedBy(sizes, "ZsizeCd")
    ensures var once := ApplyAll(sizes, SizeOps(recs));
      KeyedBy(once, "ZsizeCd") && ApplyAll(once, SizeOps(recs)) == once
  {
    var ops := SizeOps(recs);
    assert forall j :: 0 <= j < |ops| ==> OpKeyed(ops[j], "ZsizeCd");
    ApplyAllKeyed(sizes, ops, "ZsizeCd");
    assert Uniform(ops, AnyDoc);
    Idempotent(sizes, ops, AnyDoc);
  }

  /** The trimmed description of the last record selecting `d`, if any. */
  function LastTyreSize(d: Doc, recs: seq<Row>): (t: Option<string>)
    requires forall i :: 0 <= i < |recs| ==> "Desc1" in recs[i]
    decreases |recs|
  {
    if recs == [] then None
    else
      var n := |recs| - 1;
      if Selects(d, Field(recs[n], "ZsizeCd"), Field(recs[n], "CatCode")) then Some(Text.Trim(recs[n]["Desc1"]))
      else LastTyreSize(d, recs[..n])
  }

  /** Every product keeps all its fields except `tyreSize`, which becomes
      the trimmed description of the last size record selecting it; a
      product no record selects is untouched. */
  lemma {:induction false} ProductTyreSize(products: Collection<Value>, recs: seq<Row>, k: Value)
    requires forall i :: 0 <= i < |recs| ==> "Desc1" in recs[i]
    requires k in products
    ensures var c := TyreRun(products, recs);
      var t := LastTyreSize(products[k], recs);
      k in c && c[k] == if t.Some? then products[k]["tyreSize" := Str(t.value)] else products[k]
    decreases |recs|
  {
    if recs != [] {
      var n := |recs| - 1;
      ProductTyreSize(products, recs[..n], k);
      var mid := TyreRun(products, recs[..n]);
      var r := recs[n];
      var size, cat, t := Field(r, "ZsizeCd"), Field(r, "CatCode"), Text.Trim(r["Desc1"]);
      assert TyreRun(products, recs) == SetTyreSize(mid, size, cat, t);
      var d := products[k];
      assert Selects(mid[k], size, cat) == Selects(d, size, cat) by {
        assert Lookup(mid[k], "prodSize") == Lookup(d, "prodSize");
        assert Lookup(mid[k], "Catcode") == Lookup(d, "Catcode");
      }
      if Selects(d, size, cat) {
        var t0 := LastTyreSize(d, recs[..n]);
        if t0.Some? {
          OverwriteTwice(d, "tyreSize", Str(t0.value), Str(t));
        }
      }
    }
  }

  lemma OverwriteTwice(d: Doc, f: string, v: Value, w: Value)
    ensures d[f := v][f := w] == d[f := w]
  {
  }

  /** Setting `tyreSize` changes neither `prodSize` nor `Catcode`, so it
      does not change which records select a product. */
  lemma {:induction false} SelectionKept(d: Doc, e: Doc, recs: seq<Row>)
    requires forall i :: 0 <= i < |recs| ==> "Desc1" in recs[i]
    requires Lookup(d, "prodSize") == Lookup(e, "prodSize") && Lookup(d, "Catcode") == Lookup(e, "Catcode")
    ensures LastTyreSize(d, recs) == LastTyreSize(e, recs)
    decreases |recs|
  {
    if recs != [] {
      SelectionKept(d, e, recs[..|recs| - 1]);
    }
  }

  /** Re-running the same snapshot leaves the products as they are. */
  lemma ProductsIdempotent(products: Collection<Value>, recs: seq<Row>)
    requires forall i :: 0 <= i < |recs| ==> "Desc1" in recs[i]
    ensures TyreRun(TyreRun(products, recs), recs) == TyreRun(products, recs)
  {
    var once := TyreRun(products, recs);
    var twice := TyreRun(once, recs);
    forall k | k in once ensures twice[k] == once[k] {
      RerunKeeps(products, recs, k);
    }
  }

  lemma RerunKeeps(products: Collection<Value>, recs: seq<Row>, k: Value)
    requires forall i :: 0 <= i < |recs| ==> "Desc1" in recs[i]
    requires k in products
    ensures var once := TyreRun(products, recs);
      TyreRun(once, recs)[k] == once[k]
  {
    var once := TyreRun(products, recs);
    var d := products[k];
    var t := LastTyreSize(d, recs);
    ProductTyreSize(products, recs, k);
    var e := once[k];
    ProductTyreSize(once, recs, k);
    if t.Some? {
      assert e == d["tyreSize" := Str(t.value)];
      assert Lookup(e, "prodSize") == Lookup(d, "prodSize") && Lookup(e, "Catcode") == Lookup(d, "Catcode");
      SelectionKept(d, e, recs);
      OverwriteTwice(d, "tyreSize", Str(t.value), Str(t.value));
    } else {
      assert e == d;
    }
  }
}
