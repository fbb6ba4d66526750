/** `syncTyreTubbingMappingMaster`: for every product flagged `F`, fetch its
    fleet mapping rows by the rewritten material number and add each mapped
    product, once, to the product's `Musthave` variants. */
module TyreMappingSync {
  import opened Store
  import opened Http
  import opened SyncLogs

  const Action := "sync_tyre_tubbing_mapping_master"
  const Retries := 3
  const InitialDelayMs := 1000

  /** The upstream numbering: a leading `R`, `P` or `Q` becomes `1`, `2` or
      `3`; nothing else changes. */
  function Rewrite(m: string): (r: string)
    ensures |r| == |m| && (m != "" ==> r[1..] == m[1..])
    ensures m != "" && m[0] == 'R' ==> r[0] == '1'
    ensures m != "" && m[0] == 'P' ==> r[0] == '2'
    ensures m != "" && m[0] == 'Q' ==> r[0] == '3'
    ensures m == "" || !(m[0] in {'R', 'P', 'Q'}) ==> r == m
  {
    if m == "" then m
    else if m[0] == 'R' then "1" + m[1..]
    else if m[0] == 'P' then "2" + m[1..]
    else if m[0] == 'Q' then "3" + m[1..]
    else m
  }

  /** What the loop has done so far: the product collection, `updatedCount`
      and `skippedCount`. */
  datatype Tally = Tally(c: Collection<Value>, updated: nat, skipped: nat)

  /** `$addToSet: { Musthave: { variant: id } }` on the product stored under
      `target`; `updateMany` on a missing product does nothing. */
  function AddVariant(c: Collection<Value>, target: Value, id: Value): (r: Collection<Value>)
    ensures r.Keys == c.Keys
    ensures forall k :: k in c && k != target ==> r[k] == c[k]
    ensures target in c ==> r[target] == c[target]["Musthave" := List(AddToSet(Items(Lookup(c[target], "Musthave")), id))]
  {
    if target in c then c[target := c[target]["Musthave" := List(AddToSet(Items(Lookup(c[target], "Musthave")), id))]]
    else c
  }

  /** One mapping row: look up the related product by `MatnrTf` and add it
      unless the snapshot `snap` of `Musthave` already lists it. */
  function ItemStep(t: Tally, target: Value, snap: seq<Value>, item: Row): Tally
  {
    var related := Field(item, "MatnrTf");
    if related in t.c then
      var id := Lookup(t.c[related], "_id");
      if id !in snap then Tally(AddVariant(t.c, target, id), t.updated + 1, t.skipped) else t
    else t
  }

  function ItemsRun(t: Tally, target: Value, snap: seq<Value>, items: seq<Row>): Tally
    decreases |items|
  {
    if items == [] then t else ItemStep(ItemsRun(t, target, snap, items[..|items| - 1]), target, snap, items[|items| - 1])
  }

  /** One product of the `find` result: a missing material number or a
      failed fetch is caught and leaves everything as it was, no rows count
      as skipped, otherwise every row is applied. */
  function ProductStep(t: Tally, val: Doc, net: string -> nat -> Attempt): Tally
  {
    var mat := Lookup(val, "materialNo");
    if !mat.Str? then t
    else
      var g := Outcome(Retries, Default2xx, net(Rewrite(mat.s)));
      if g.Threw? then t
      else if RowsOf(g) == [] then t.(skipped := t.skipped + 1)
      else ItemsRun(t, mat, Items(Lookup(val, "Musthave")), RowsOf(g))
  }

  function MappingRun(t: Tally, found: seq<Doc>, net: string -> nat -> Attempt): Tally
    decreases |found|
  {
    if found == [] then t else ProductStep(MappingRun(t, found[..|found| - 1], net), found[|found| - 1], net)
  }

  /** The inner `for (const item of data)` loop. */
  method AddVariants(t: Tally, target: Value, snap: seq<Value>, data: seq<Row>) returns (t': Tally)
    ensures t' == ItemsRun(t, target, snap, data)
  {
    var c, updated := t.c, t.updated;
    var j := 0;
    while j < |data|
      invariant 0 <= j <= |data|
      invariant Tally(c, updated, t.skipped) == ItemsRun(t, target, snap, data[..j])
    {
      assert data[..j + 1][..j] == data[..j];
      var related := Field(data[j], "MatnrTf");
      if related in c {
        var id := Lookup(c[related], "_id");
        if id !in snap {
          c := AddVariant(c, target, id);
          updated := updated + 1;
        }
      }
      j := j + 1;
    }
    assert data[..|data|] == data;
    t' := Tally(c, updated, t.skipped);
  }

  /** The mapping job's run. `found` is what `Product.find({ Flag: "F" })`
      returned at the start, in order; `net(m)` answers each attempt of the
      ZFLEET_HDRSet query for material number `m`. */
  method SyncTyreTubbingMappingMaster(products: Collection<Value>, found: seq<Doc>, net: string -> nat -> Attempt)
    returns (products': Collection<Value>, log: SyncLog, exit: Exit)
    ensures var t := MappingRun(Tally(products, 0, 0), found, net);
      products' == t.c && exit == Done &&
      log == Succeed(Create(Action, None),
        map["totalProducts" := |found|, "updatedCount" := t.updated, "skippedCount" := t.skipped])
  {
    log := Create(Action, None);
    var t := Tally(products, 0, 0);
    var i := 0;
    while i < |found|
      invariant 0 <= i <= |found|
      invariant t == MappingRun(Tally(products, 0, 0), found[..i], net)
    {
      assert found[..i + 1][..i] == found[..i];
      var val := found[i];
      var mat := Lookup(val, "materialNo");
      if mat.Str? {
        var g, _, _ := RobustGet(Retries, InitialDelayMs, Default2xx, net(Rewrite(mat.s)));
        if g.Got? {
          var data := RowsOf(g);
          if data == [] {
            t := t.(skipped := t.skipped + 1);
          } else {
            t := AddVariants(t, mat, Items(Lookup(val, "Musthave")), data);
          }
        }
      }
      i := i + 1;
    }
    assert found[..|found|] == found;
    products' := t.c;
    log := Succeed(log, map["totalProducts" := |found|, "updatedCount" := t.updated, "skippedCount" := t.skipped]);
    exit := Done;
  }

  // ---------------------------------------------------------------------
  // Properties

  /** Every stored product's `Musthave` list is free of duplicates. */
  predicate MusthaveDistinct(c: Collection<Value>)
  {
    forall k :: k in c ==> NoDup(Items(Lookup(c[k], "Musthave")))
  }

  /** `r` differs from `c` only in `Musthave` lists that grew by ids of
      products stored in `c`. */
  ghost predicate OnlyAdds(c: Collection<Value>, r: Collection<Value>)
  {
    r.Keys == c.Keys &&
    forall k :: k in c ==>
      (forall f :: f != "Musthave" ==> Lookup(r[k], f) == Lookup(c[k], f)) &&
      (forall v :: v in Items(Lookup(r[k], "Musthave")) ==>
        v in Items(Lookup(c[k], "Musthave")) || exists p :: p in c && Lookup(c[p], "_id") == v)
  }

  lemma AddVariantKeeps(c: Collection<Value>, target: Value, related: Value)
    requires related in c
    ensures MusthaveDistinct(c) ==> MusthaveDistinct(AddVariant(c, target, Lookup(c[related], "_id")))
    ensures OnlyAdds(c, AddVariant(c, target, Lookup(c[related], "_id")))
  {
    var id := Lookup(c[related], "_id");
    if MusthaveDistinct(c) {
      AddVariantDistinct(c, target, id);
    }
    AddVariantOnlyAdds(c, target, related);
  }

  lemma AddVariantDistinct(c: Collection<Value>, target: Value, id: Value)
    requires MusthaveDistinct(c)
    ensures MusthaveDistinct(AddVariant(c, target, id))
  {
    var r := AddVariant(c, target, id);
    forall k | k in r
      ensures NoDup(Items(Lookup(r[k], "Musthave")))
    {
      if k == target {
        assert Items(Lookup(r[k], "Musthave")) == AddToSet(Items(Lookup(c[k], "Musthave")), id);
      }
    }
  }

  lemma AddVariantOnlyAdds(c: Collection<Value>, target: Value, related: Value)
    requires related in c
    ensures OnlyAdds(c, AddVariant(c, target, Lookup(c[related], "_id")))
  {
    var id := Lookup(c[related], "_id");
    var r := AddVariant(c, target, id);
    forall k | k in c
      ensures (forall f :: f != "Musthave" ==> Lookup(r[k], f) == Lookup(c[k], f)) &&
        forall v :: v in Items(Lookup(r[k], "Musthave")) ==>
          v in Items(Lookup(c[k], "Musthave")) || exists p :: p in c && Lookup(c[p], "_id") == v
    {
      if k == target {
        var xs := Items(Lookup(c[k], "Musthave"));
        assert Items(Lookup(r[k], "Musthave")) == AddToSet(xs, id);
        forall v | v in AddToSet(xs, id)
          ensures v in xs || exists p :: p in c && Lookup(c[p], "_id") == v
        {
          if v !in xs {
            assert Lookup(c[related], "_id") == v;
          }
        }
      }
    }
  }


  lemma OnlyAddsTrans(a: Collection<Value>, b: Collection<Value>, c: Collection<Value>)
    requires OnlyAdds(a, b) && OnlyAdds(b, c)
    ensures OnlyAdds(a, c)
  {
    forall k | k in a
      ensures forall v :: v in Items(Lookup(c[k], "Musthave")) ==>
        v in Items(Lookup(a[k], "Musthave")) || exists p :: p in a && Lookup(a[p], "_id") == v
    {
      forall v | v in Items(Lookup(c[k], "Musthave"))
        ensures v in Items(Lookup(a[k], "Musthave")) || exists p :: p in a && Lookup(a[p], "_id") == v
      {
        if v !in Items(Lookup(b[k], "Musthave")) {
          var p :| p in b && Lookup(b[p], "_id") == v;
          assert Lookup(a[p], "_id") == v;
        }
      }
    }
  }

  lemma OnlyAddsRefl(c: Collection<Value>)
    ensures OnlyAdds(c, c)
  {
  }

  lemma {:induction false} ItemsRunKeeps(t: Tally, target: Value, snap: seq<Value>, items: seq<Row>)
    ensures var r := ItemsRun(t, target, snap, items);
      (MusthaveDistinct(t.c) ==> MusthaveDistinct(r.c)) && OnlyAdds(t.c, r.c) &&
      r.skipped == t.skipped && t.updated <= r.updated <= t.updated + |items|
    decreases |items|
  {
    if items == [] {
      OnlyAddsRefl(t.c);
    } else {
      var init := items[..|items| - 1];
      ItemsRunKeeps(t, target, snap, init);
      var m := ItemsRun(t, target, snap, init);
      var related := Field(items[|items| - 1], "MatnrTf");
      if related in m.c && Lookup(m.c[related], "_id") !in snap {
        AddVariantKeeps(m.c, target, related);
        OnlyAddsTrans(t.c, m.c, ItemsRun(t, target, snap, items).c);
      }
    }
  }

  lemma ProductStepKeeps(t: Tally, val: Doc, net: string -> nat -> Attempt)
    ensures var r := ProductStep(t, val, net);
      (MusthaveDistinct(t.c) ==> MusthaveDistinct(r.c)) && OnlyAdds(t.c, r.c) &&
      t.skipped <= r.skipped <= t.skipped + 1 && t.updated <= r.updated
  {
    var mat := Lookup(val, "materialNo");
    if mat.Str? {
      var g := Outcome(Retries, Default2xx, net(Rewrite(mat.s)));
      if g.Got? && RowsOf(g) != [] {
        ItemsRunKeeps(t, mat, Items(Lookup(val, "Musthave")), RowsOf(g));
        return;
      }
    }
    OnlyAddsRefl(t.c);
  }

  /** The run never duplicates a `Musthave` variant, changes nothing but
      `Musthave` lists, only adds ids of stored products, and skips at most
      one time per product. */
  lemma {:induction false} MappingRunKeeps(t: Tally, found: seq<Doc>, net: string -> nat -> Attempt)
    ensures var r := MappingRun(t, found, net);
      (MusthaveDistinct(t.c) ==> MusthaveDistinct(r.c)) && OnlyAdds(t.c, r.c) &&
      t.skipped <= r.skipped <= t.skipped + |found| && t.updated <= r.updated
    decreases |found|
  {
    if found == [] {
      OnlyAddsRefl(t.c);
    } else {
      var init := found[..|found| - 1];
      MappingRunKeeps(t, init, net);
      var m := MappingRun(t, init, net);
      ProductStepKeeps(m, found[|found| - 1], net);
      OnlyAddsTrans(t.c, m.c, MappingRun(t, found, net).c);
    }
  }

  /** Writes aim at the original material number: a product whose number no
      `found` entry carries keeps its document. */
  lemma {:induction false} UntargetedUntouched(t: Tally, found: seq<Doc>, net: string -> nat -> Attempt, k: Value)
    requires k in t.c && forall i :: 0 <= i < |found| ==> Lookup(found[i], "materialNo") != k
    ensures k in MappingRun(t, found, net).c && MappingRun(t, found, net).c[k] == t.c[k]
    decreases |found|
  {
    if found != [] {
      var init := found[..|found| - 1];
      UntargetedUntouched(t, init, net, k);
      var m := MappingRun(t, init, net);
      var val := found[|found| - 1];
      var mat := Lookup(val, "materialNo");
      if mat.Str? {
        var g := Outcome(Retries, Default2xx, net(Rewrite(mat.s)));
        if g.Got? && RowsOf(g) != [] {
          ItemsUntouched(m, mat, Items(Lookup(val, "Musthave")), RowsOf(g), k);
        }
      }
    }
  }

  lemma {:induction false} ItemsUntouched(t: Tally, target: Value, snap: seq<Value>, items: seq<Row>, k: Value)
    requires k in t.c && k != target
    ensures k in ItemsRun(t, target, snap, items).c && ItemsRun(t, target, snap, items).c[k] == t.c[k]
    decreases |items|
  {
    if items != [] {
      ItemsUntouched(t, target, snap, items[..|items| - 1], k);
    }
  }

  /** A variant the snapshot already lists is never added again, and such
      rows do not count as updates. */
  lemma ListedNotCounted(t: Tally, target: Value, snap: seq<Value>, item: Row)
    requires Field(item, "MatnrTf") in t.c && Lookup(t.c[Field(item, "MatnrTf")], "_id") in snap
    ensures ItemStep(t, target, snap, item) == t
  {
  }

  lemma MissingRelatedNoChange(t: Tally, target: Value, snap: seq<Value>, item: Row)
    requires Field(item, "MatnrTf") !in t.c
    ensures ItemStep(t, target, snap, item) == t
  {
  }
}
