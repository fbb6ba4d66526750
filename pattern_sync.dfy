/** `syncPatternMaster`: fetch PatMstSet once (every HTTP status accepted),
    then upsert the records by (`PatCode`, `CatCode`) in consecutive batches
    of unordered bulk writes. */
module PatternSync {
  import opened Store
  import opened Http
  import opened SyncLogs

  const Action := "sync_pattern_master"
  const ServicePath := "/ZAWS_JKCONNECT_SRV/PatMstSet"
  const NotConfigured := "SAP_API_URL not configured"
  const InvalidShape := "SAP returned invalid response shape"
  const DefaultRetries := 3
  const DefaultBatchSize := 500

  /** The endpoint: the base with one trailing `/` removed (the regex
      `/\/$/` anchors at the very end), then the service path. */
  function PatUrl(base: string): (url: string)
    ensures |url| >= |ServicePath| && url[|url| - |ServicePath|..] == ServicePath
    ensures var b := url[..|url| - |ServicePath|];
      (base == b + "/" <==> |base| > 0 && base[|base| - 1] == '/') &&
      (base == b || base == b + "/")
  {
    var b := if |base| > 0 && base[|base| - 1] == '/' then base[..|base| - 1] else base;
    assert (b + ServicePath)[..|b|] == b;
    b + ServicePath
  }

  /** Only one slash goes, however many the base ends with. */
  lemma StripsOneSlash(b: string)
    ensures PatUrl(b + "/") == b + ServicePath
    ensures PatUrl(b + "//") == b + "/" + ServicePath
  {
    assert (b + "/")[..|b|] == b;
    assert (b + "//")[..|b| + 1] == b + "/";
  }

  /** The composite filter `{ PatCode, CatCode }`. */
  datatype PatKey = PatKey(patCode: Value, catCode: Value)

  /** `updateOne` with `upsert: true`, filter on the two codes and `$set` of
      every field of the record. */
  function PatOp(r: Row): (op: Upsert<PatKey>)
    ensures op.key == PatKey(Field(r, "PatCode"), Field(r, "CatCode")) && op.filter == AnyDoc
    ensures op.update == RowDoc(r)
  {
    var key := PatKey(Field(r, "PatCode"), Field(r, "CatCode"));
    Upsert(key, AnyDoc, Put(Put(map[], "PatCode", key.patCode), "CatCode", key.catCode), RowDoc(r))
  }

  function PatOps(rows: seq<Row>): (ops: seq<Upsert<PatKey>>)
    ensures |ops| == |rows| && forall i :: 0 <= i < |rows| ==> ops[i] == PatOp(rows[i])
  {
    seq(|rows|, i requires 0 <= i < |rows| => PatOp(rows[i]))
  }

  function Flatten(bs: seq<seq<Row>>): seq<Row>
    decreases |bs|
  {
    if bs == [] then [] else Flatten(bs[..|bs| - 1]) + bs[|bs| - 1]
  }

  /** The records split into consecutive, non-empty slices of at most `size`,
      all but the last exactly `size` long. */
  predicate Batched(bs: seq<seq<Row>>, rows: seq<Row>, size: int)
  {
    Flatten(bs) == rows &&
    (forall k :: 0 <= k < |bs| ==> 0 < |bs[k]| <= size) &&
    (forall k :: 0 <= k < |bs| - 1 ==> |bs[k]| == size)
  }

  /** One batch's `bulkWrite`, over the record indices `lo..hi`. */
  method WriteBatch(c: Collection<PatKey>, ops: seq<Upsert<PatKey>>, lo: nat, hi: nat, lands: nat -> bool,
                    ghost c0: Collection<PatKey>)
    returns (c': Collection<PatKey>)
    requires lo <= hi <= |ops| && c == ApplyAll(c0, Landed(ops[..lo], lands))
    ensures c' == ApplyAll(c0, Landed(ops[..hi], lands))
  {
    c' := c;
    var k := lo;
    while k < hi
      invariant lo <= k <= hi
      invariant c' == ApplyAll(c0, Landed(ops[..k], lands))
    {
      LandedStep(c0, ops, lands, k);
      if lands(k) {
        c' := Apply(c', ops[k]);
      }
      k := k + 1;
    }
  }

  /** A bound of `Array.prototype.slice`: a negative one counts back from
      the end, and both are clamped to the array. */
  function Clamp(len: nat, x: int): nat
  {
    if x < 0 then (if len + x > 0 then len + x else 0) else if x < len then x else len
  }

  /** `s.slice(start, end)`; bounds that cross give the empty array. */
  function Slice(s: seq<Row>, start: int, end: int): seq<Row>
  {
    var lo, hi := Clamp(|s|, start), Clamp(|s|, end);
    if lo < hi then s[lo..hi] else []
  }

  /** `parseInt(SYNC_BULK_BATCH_SIZE, 10)`, or 500 when the variable is
      unset or empty: a whole number, or `NaN` when the text does not start
      with one. */
  datatype BatchSize = Size(n: int) | NotANumber

  /** The batch loop for a size of at least one: slices in order, every
      slice counted as processed whether or not its `bulkWrite` threw. */
  method WriteAll(pats: Collection<PatKey>, rows: seq<Row>, size: int, lands: nat -> bool)
    returns (pats': Collection<PatKey>, processed: nat, batches: seq<seq<Row>>)
    requires size >= 1
    ensures pats' == ApplyAll(pats, Landed(PatOps(rows), lands))
    ensures processed == |rows| && Batched(batches, rows, size)
  {
    var ops := PatOps(rows);
    pats' := pats;
    processed := 0;
    batches := [];
    var i := 0;
    // `i += BATCH_SIZE` overshoots only past the end; `slice` clamps, so
    // stepping to the clamped end visits the same slices
    while i < |rows|
      invariant 0 <= i <= |rows| && processed == i
      invariant pats' == ApplyAll(pats, Landed(ops[..i], lands))
      invariant Flatten(batches) == rows[..i]
      invariant forall k :: 0 <= k < |batches| ==> 0 < |batches[k]| <= size
      invariant forall k :: 0 <= k < |batches| - 1 ==> |batches[k]| == size
      invariant batches != [] && i < |rows| ==> |batches[|batches| - 1]| == size
      decreases |rows| - i
    {
      var hi := if i + size < |rows| then i + size else |rows|;
      var batch := Slice(rows, i, i + size);
      assert batch == rows[i..hi];
      pats' := WriteBatch(pats', ops, i, hi, lands, pats);
      AppendBatch(batches, rows, i, hi, size);
      batches := batches + [batch];
      processed := processed + |batch|;
      i := hi;
    }
    assert rows[..|rows|] == rows;
    assert ops[..|rows|] == ops;
  }

  /** The next slice extends a batching of the first `i` records to one of
      the first `hi`. */
  lemma AppendBatch(batches: seq<seq<Row>>, rows: seq<Row>, i: nat, hi: nat, size: int)
    requires i < hi <= |rows| && hi - i <= size && (hi < |rows| ==> hi - i == size)
    requires Flatten(batches) == rows[..i]
    requires forall k :: 0 <= k < |batches| ==> 0 < |batches[k]| <= size
    requires forall k :: 0 <= k < |batches| - 1 ==> |batches[k]| == size
    requires batches != [] ==> |batches[|batches| - 1]| == size
    ensures var bs := batches + [rows[i..hi]];
      Flatten(bs) == rows[..hi] &&
      (forall k :: 0 <= k < |bs| ==> 0 < |bs[k]| <= size) &&
      (forall k :: 0 <= k < |bs| - 1 ==> |bs[k]| == size)
  {
    var bs := batches + [rows[i..hi]];
    assert bs[..|batches|] == batches;
    assert rows[..hi] == rows[..i] + rows[i..hi];
  }

  /** The pattern job's run against the pattern collection. `sapBase` is
      `SAP_API_URL` (`None` when unset); `retries`, `initialDelayMs` and
      `batchSize` are the values taken from the environment or their
      defaults; `net(url)` answers each attempt on `url`. The returned log
      is the stored document, `report` what the job asks to write
      alongside its status.

      A batch size below one never ends the loop: the job writes its first
      slice and then spins on empty ones (`exit == Loops`, the log left
      pending). `NaN` ends it after one empty slice, and the run is logged
      as successful with nothing processed. */
  method SyncPatternMaster(pats: Collection<PatKey>, sapBase: Option<string>, retries: int, initialDelayMs: int,
                           batchSize: BatchSize, net: string -> nat -> Attempt, lands: nat -> bool)
    returns (pats': Collection<PatKey>, log: PatternSyncLog, report: PatternReport, exit: Exit,
             batches: seq<seq<Row>>)
    ensures var created := CreatePatternLog(Some(Action), None);
      log == created.(status := log.status) && (exit == Done <==> log.status == Successful) &&
      (exit == Loops <==> log.status == Pending) &&
      (log.status == Failed ==>
        (pats' == pats && batches == [] &&
         report.error.Some? && exit == Raised(report.error.value) && report.meta == map[]))
    ensures sapBase.None? || sapBase.value == "" ==>
      log.status == Failed && report.error == Some(NotConfigured)
    ensures sapBase.Some? && sapBase.value != "" ==>
      var g := Outcome(retries, AcceptAll, net(PatUrl(sapBase.value)));
      if g.Threw? then log.status == Failed && report.error == Some(Message(g.err))
      else if g.resp.body.Malformed? then log.status == Failed && report.error == Some(InvalidShape)
      else
        var rows := g.resp.body.rows;
        (rows == [] ==>
          log.status == Successful && report == PatternReport(None, map["fetched" := 0]) &&
          pats' == pats && batches == []) &&
        (rows != [] && batchSize.Size? && batchSize.n >= 1 ==>
          log.status == Successful && report.error.None? &&
          pats' == ApplyAll(pats, Landed(PatOps(rows), lands)) && Batched(batches, rows, batchSize.n) &&
          report.meta == map["fetched" := |rows|, "processed" := |rows|]) &&
        (rows != [] && batchSize.NotANumber? ==>
          log.status == Successful && report == PatternReport(None, map["fetched" := |rows|, "processed" := 0]) &&
          pats' == pats && batches == [[]]) &&
        (rows != [] && batchSize.Size? && batchSize.n <= 0 ==>
          var m := if batchSize.n < 0 && |rows| + batchSize.n > 0 then |rows| + batchSize.n else 0;
          exit == Loops && report == PatternReport(None, map[]) &&
          pats' == ApplyAll(pats, Landed(PatOps(rows)[..m], lands)) && batches == [rows[..m]])
  {
    log := CreatePatternLog(Some(Action), None);
    pats' := pats;
    batches := [];
    if sapBase.None? || sapBase.value == "" {
      log := log.(status := Failed);
      report := PatternReport(Some(NotConfigured), map[]);
      exit := Raised(NotConfigured);
      return;
    }
    var url := PatUrl(sapBase.value);
    var g, _, _ := RobustGet(retries, initialDelayMs, AcceptAll, net(url));
    if g.Threw? {
      log := log.(status := Failed);
      report := PatternReport(Some(Message(g.err)), map[]);
      exit := Raised(Message(g.err));
      return;
    }
    if g.resp.body.Malformed? {
      // marked failed, then thrown into the catch, which marks it again
      log := log.(status := Failed);
      report := PatternReport(Some(InvalidShape), map[]);
      exit := Raised(InvalidShape);
      return;
    }
    var rows := g.resp.body.rows;
    if rows == [] {
      log := log.(status := Successful);
      report := PatternReport(None, map["fetched" := 0]);
      exit := Done;
      return;
    }
    match batchSize
    case NotANumber =>
      // `slice(0, NaN)` is empty, and after `i += NaN` the test `i < length` fails
      batches := [Slice(rows, 0, 0)];
      log := log.(status := Successful);
      report := PatternReport(None, map["fetched" := |rows|, "processed" := 0]);
      exit := Done;
    case Size(n) =>
      if n >= 1 {
        var processed;
        pats', processed, batches := WriteAll(pats, rows, n, lands);
        log := log.(status := Successful);
        report := PatternReport(None, map["fetched" := |rows|, "processed" := processed]);
        exit := Done;
      } else {
        // the first slice is written; every later one is empty and `i`
        // never reaches the end (NonPositiveSizeLoops)
        var first := Slice(rows, 0, n);
        assert first == rows[..|first|];
        pats' := WriteBatch(pats, PatOps(rows), 0, |first|, lands, pats);
        batches := [first];
        report := PatternReport(None, map[]);
        exit := Loops;
      }
  }

  /** With a batch size below one the loop test `i < records.length` holds
      at every pass `k`, and every pass after the first takes an empty
      slice: the loop never ends. */
  lemma NonPositiveSizeLoops(rows: seq<Row>, n: int, k: nat)
    requires rows != [] && n <= 0
    ensures k * n < |rows|
    ensures k >= 1 ==> Slice(rows, k * n, k * n + n) == []
  {
    assert k * n <= 0;
  }

  // ---------------------------------------------------------------------
  // Properties

  /** Each record stands for its own slot: when every write lands, the
      record no later record overrides is stored under its two codes with
      all of its fields. */
  lemma PatternRecordStored(pats: Collection<PatKey>, rows: seq<Row>, lands: nat -> bool, i: nat)
    requires forall k: nat :: k < |rows| ==> lands(k)
    requires i < |rows| && forall j :: i < j < |rows| ==> PatOp(rows[j]).key != PatOp(rows[i]).key
    ensures var c := ApplyAll(pats, Landed(PatOps(rows), lands));
      var key := PatKey(Field(rows[i], "PatCode"), Field(rows[i], "CatCode"));
      key in c && forall f :: f in rows[i] ==> f in c[key] && c[key][f] == Str(rows[i][f])
  {
    var ops := PatOps(rows);
    LandedEvery(ops, lands);
    assert Uniform(ops, AnyDoc);
    LastWriteWins(pats, ops, AnyDoc, i);
  }

  /** Running the same snapshot twice, with every write landing, leaves the
      collection as one run left it. */
  lemma PatternSnapshotIdempotent(pats: Collection<PatKey>, rows: seq<Row>, lands: nat -> bool)
    requires forall k: nat :: k < |rows| ==> lands(k)
    ensures var once := ApplyAll(pats, Landed(PatOps(rows), lands));
      ApplyAll(once, Landed(PatOps(rows), lands)) == once
  {
    var ops := PatOps(rows);
    LandedEvery(ops, lands);
    assert Uniform(ops, AnyDoc);
    Idempotent(pats, ops, AnyDoc);
  }
}
