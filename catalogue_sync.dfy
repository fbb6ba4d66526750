/** `syncCatalogueMaster`: fetch CatalogTtfDtlSet once and upsert every
    record by (`MatnrTyre`, `MatnrTf`) from an async `forEach`. It writes no
    sync log; its promise resolves with the `errors` list when the callback
    of the last index has written, or rejects as soon as an upsert fails.
    The callbacks run one after another here, in index order. */
module CatalogueSync {
  import opened Store
  import opened Http

  /** The composite filter `{ MatnrTyre, MatnrTf }`. */
  datatype CatKey = CatKey(tyre: Value, tf: Value)

  /** One entry of `errors`: `{ type: " ADDING", message, error }`. */
  datatype AddError = AddError(kind: string, message: string)

  const Adding := " ADDING"

  /** The update object as written, `undefined` values included. */
  function CatalogueRaw(val: Row): Doc
  {
    map["MatnrTf" := Field(val, "MatnrTf"), "MatnrTyre" := Field(val, "MatnrTyre"),
        "Priority" := Field(val, "Priority"), "Tyre" := Field(val, "Tyre"), "deleted" := Bool(false)]
  }

  function CatalogueOp(val: Row): (op: Upsert<CatKey>)
    ensures op.key == CatKey(Field(val, "MatnrTyre"), Field(val, "MatnrTf")) && op.filter == AnyDoc
  {
    var key := CatKey(Field(val, "MatnrTyre"), Field(val, "MatnrTf"));
    Upsert(key, AnyDoc, Put(Put(map[], "MatnrTyre", key.tyre), "MatnrTf", key.tf), Defined(CatalogueRaw(val)))
  }

  function CatalogueOps(recs: seq<Row>): (ops: seq<Upsert<CatKey>>)
    ensures |ops| == |recs| && forall i :: 0 <= i < |recs| ==> ops[i] == CatalogueOp(recs[i])
  {
    seq(|recs|, i requires 0 <= i < |recs| => CatalogueOp(recs[i]))
  }

  /** The `errors` list after the first `n` callbacks. */
  function ErrorsOf(n: nat, fails: nat -> Option<string>): (es: seq<AddError>)
    decreases n
  {
    if n == 0 then []
    else ErrorsOf(n - 1, fails) + (if fails(n - 1).Some? then [AddError(Adding, fails(n - 1).value)] else [])
  }

  /** How the promise ends. It hands `reject` and `resolve` the `errors`
      array itself, so whoever awaits it sees every error pushed later too. */
  datatype Ending = Resolves(errors: seq<AddError>) | RejectsWith(errors: seq<AddError>) | Fails(message: string) | NeverSettles

  /** The resolution rule as written: the first failing callback rejects;
      otherwise the last index resolves; with no record nothing settles. */
  function Settlement(n: nat, fails: nat -> Option<string>): Ending
  {
    if n == 0 then NeverSettles
    else if ErrorsOf(n, fails) != [] then RejectsWith(ErrorsOf(n, fails))
    else Resolves([])
  }

  /** The catalogue run as written. `reply` is the answer to the single
      request; `shapeError` the TypeError text the runtime gives when the
      reply has no `d.results` list, which the `try` turns into a
      rejection. */
  method SyncCatalogueMaster(catalogue: Collection<CatKey>, reply: Attempt, shapeError: string,
                             fails: nat -> Option<string>)
    returns (catalogue': Collection<CatKey>, ending: Ending)
    ensures var g := Try(Default2xx, reply);
      if g.Got? && g.resp.body.Results? then
        var recs := g.resp.body.rows;
        catalogue' == ApplyAll(catalogue, Landed(CatalogueOps(recs), Lands(fails))) &&
        ending == Settlement(|recs|, fails)
      else
        catalogue' == catalogue && ending == Fails(if g.Threw? then Message(g.err) else shapeError)
  {
    catalogue' := catalogue;
    var g := Try(Default2xx, reply);
    if g.Threw? {
      ending := Fails(Message(g.err));
      return;
    }
    if !g.resp.body.Results? {
      ending := Fails(shapeError);
      return;
    }
    var recs := g.resp.body.rows;
    var errors, rejected, resolved;
    catalogue', errors, rejected, resolved := WriteAll(catalogue, CatalogueOps(recs), fails, Lands(fails));
    ending := if rejected then RejectsWith(errors) else if resolved then Resolves(errors) else NeverSettles;
  }

  /** The `forEach` callbacks in index order: each upsert that fails pushes
      its error and rejects, and the last index resolves unless a rejection
      came first. */
  method WriteAll(catalogue: Collection<CatKey>, ops: seq<Upsert<CatKey>>, fails: nat -> Option<string>, lands: nat -> bool)
    returns (catalogue': Collection<CatKey>, errors: seq<AddError>, rejected: bool, resolved: bool)
    requires forall i: nat :: lands(i) == fails(i).None?
    ensures catalogue' == ApplyAll(catalogue, Landed(ops, lands))
    ensures errors == ErrorsOf(|ops|, fails)
    ensures rejected <==> errors != []
    ensures resolved <==> |ops| > 0 && errors == []
  {
    catalogue' := catalogue;
    errors := [];
    rejected, resolved := false, false;
    var index := 0;
    while index < |ops|
      invariant 0 <= index <= |ops|
      invariant catalogue' == ApplyAll(catalogue, Landed(ops[..index], lands))
      invariant errors == ErrorsOf(index, fails)
      invariant rejected <==> errors != []
      invariant resolved <==> index == |ops| && index > 0 && errors == []
    {
      LandedStep(catalogue, ops, lands, index);
      if fails(index).Some? {
        errors := errors + [AddError(Adding, fails(index).value)];
        rejected := true;
      } else {
        catalogue' := Apply(catalogue', ops[index]);
        if index + 1 == |ops| && !rejected {
          resolved := true;
        }
      }
      index := index + 1;
    }
    assert ops[..|ops|] == ops;
  }

  /** The same run resolving, with the empty list, when no record is
      returned. */
  function SettlementFixed(n: nat, fails: nat -> Option<string>): (e: Ending)
    ensures e != NeverSettles
    ensures n > 0 ==> e == Settlement(n, fails)
    ensures e.Resolves? <==> ErrorsOf(n, fails) == []
  {
    if n == 0 then Resolves([]) else Settlement(n, fails)
  }

  // ---------------------------------------------------------------------
  // Properties

  /** As written, an empty answer never settles the promise. */
  lemma EmptyNeverSettles(fails: nat -> Option<string>)
    ensures Settlement(0, fails) == NeverSettles && SettlementFixed(0, fails) == Resolves([])
  {
  }

  /** The run rejects exactly when some upsert failed; otherwise it
      resolves with no errors. */
  lemma {:induction false} ErrorsExactly(n: nat, fails: nat -> Option<string>)
    ensures ErrorsOf(n, fails) == [] <==> forall i: nat :: i < n ==> fails(i).None?
    decreases n
  {
    if n > 0 {
      ErrorsExactly(n - 1, fails);
      if fails(n - 1).Some? {
        assert ErrorsOf(n, fails)[|ErrorsOf(n, fails)| - 1] == AddError(Adding, fails(n - 1).value);
      }
    }
  }

  /** One " ADDING" entry per failed record, carrying its message, in
      record order. */
  lemma {:induction false} ErrorsCounted(n: nat, fails: nat -> Option<string>)
    ensures |ErrorsOf(n, fails)| == |set i: nat | i < n && fails(i).Some?|
    ensures forall e :: e in ErrorsOf(n, fails) ==> e.kind == Adding
    decreases n
  {
    if n > 0 {
      ErrorsCounted(n - 1, fails);
      var before := set i: nat | i < n - 1 && fails(i).Some?;
      var now := set i: nat | i < n && fails(i).Some?;
      if fails(n - 1).Some? {
        assert now == before + {n - 1};
      } else {
        assert now == before;
      }
    }
  }

  /** The update sets the two material numbers, `Priority`, `Tyre` and
      `deleted: false`. */
  lemma CatalogueFields(val: Row)
    ensures var u := CatalogueOp(val).update;
      Lookup(u, "deleted") == Bool(false) && Lookup(u, "MatnrTyre") == Field(val, "MatnrTyre") &&
      Lookup(u, "MatnrTf") == Field(val, "MatnrTf") && Lookup(u, "Priority") == Field(val, "Priority") &&
      Lookup(u, "Tyre") == Field(val, "Tyre")
  {
    var m := CatalogueRaw(val);
    assert m["deleted"] == Bool(false) && m["MatnrTyre"] == Field(val, "MatnrTyre") && m["MatnrTf"] == Field(val, "MatnrTf");
    assert m["Priority"] == Field(val, "Priority") && m["Tyre"] == Field(val, "Tyre");
    LookupDefined(m, "deleted");
    LookupDefined(m, "MatnrTyre");
    LookupDefined(m, "MatnrTf");
    LookupDefined(m, "Priority");
    LookupDefined(m, "Tyre");
  }

  /** A failed upsert touches nothing, and with every upsert landing each
      record no later record overrides is stored under its pair. */
  lemma CatalogueRecordStored(catalogue: Collection<CatKey>, recs: seq<Row>, i: nat, fails: nat -> Option<string>)
    requires forall k: nat :: k < |recs| ==> fails(k).None?
    requires i < |recs| && forall j :: i < j < |recs| ==> CatalogueOp(recs[j]).key != CatalogueOp(recs[i]).key
    ensures var c := ApplyAll(catalogue, Landed(CatalogueOps(recs), Lands(fails)));
      CatalogueOp(recs[i]).key in c && SubDoc(CatalogueOp(recs[i]).update, c[CatalogueOp(recs[i]).key])
  {
    var ops := CatalogueOps(recs);
    LandedEvery(ops, Lands(fails));
    assert Uniform(ops, AnyDoc);
    LastWriteWins(catalogue, ops, AnyDoc, i);
  }

  /** Re-running a snapshot in which every upsert lands changes nothing. */
  lemma CatalogueSnapshotIdempotent(catalogue: Collection<CatKey>, recs: seq<Row>, fails: nat -> Option<string>)
    requires forall k: nat :: k < |recs| ==> fails(k).None?
    ensures var once := ApplyAll(catalogue, Landed(CatalogueOps(recs), Lands(fails)));
      ApplyAll(once, Landed(CatalogueOps(recs), Lands(fails))) == once
  {
    var ops := CatalogueOps(recs);
    LandedEvery(ops, Lands(fails));
    assert Uniform(ops, AnyDoc);
    Idempotent(catalogue, ops, AnyDoc);
  }
}
