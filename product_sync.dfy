/** `syncProductMaster`: fetch SKUMstSet once, derive each product's
    computed fields, and upsert it by material number; one record's failure
    does not stop the others. */
module ProductSync {
  import opened Store
  import opened Http
  import opened SyncLogs
  import Text
  import Schemas
  import PatternSync

  const DefaultAction := "sync_products"

  // ---------------------------------------------------------------------
  // Derived fields

  /** The product type from the first character of the material number:
      `1`/`R` tyre, `P`/`2` tube, `Q`/`3` flap, anything else tyre. */
  function ProductType(matnr: string): (t: string)
    ensures matnr != "" && matnr[0] in {'P', '2'} ==> t == "tube"
    ensures matnr != "" && matnr[0] in {'Q', '3'} ==> t == "flap"
    ensures matnr == "" || !(matnr[0] in {'P', '2', 'Q', '3'}) ==> t == "tyre"
  {
    if matnr == "" then "tyre"
    else if matnr[0] == '1' || matnr[0] == 'R' then "tyre"
    else if matnr[0] == 'P' || matnr[0] == '2' then "tube"
    else if matnr[0] == 'Q' || matnr[0] == '3' then "flap"
    else "tyre"
  }

  /** The construction: code "1" is BIAS, "2" RADIAL, anything else (missing
      included) empty. */
  function ConstName(code: Value): (c: string)
    ensures code == Str("1") ==> c == "BIAS"
    ensures code == Str("2") ==> c == "RADIAL"
    ensures code != Str("1") && code != Str("2") ==> c == ""
  {
    if code == Str("1") then "BIAS" else if code == Str("2") then "RADIAL" else ""
  }

  /** `ParentFlg || "N"`: a missing or empty flag becomes "N". */
  function ParentFlag(v: Value): (f: Value)
    ensures v.Str? && v.s != "" ==> f == v
    ensures !(v.Str? && v.s != "") ==> f == Str("N")
  {
    if v.Str? && v.s != "" then v else Str("N")
  }

  const ImageTyre := "https://jkconnect.s3.ap-south-1.amazonaws.com/public/1634889552561-0.4176694816923583.jpeg"
  const ImageTube := "https://jkconnect.s3.ap-south-1.amazonaws.com/public/1634889602402-0.31052746622225813.jpeg"
  const ImageFlap := "https://jkconnect.s3.ap-south-1.amazonaws.com/public/1634889654310-0.3067023867617864.png"
  const Image51 := "https://jkconnect.s3.ap-south-1.amazonaws.com/public/1634889822179-0.695795535557235.jpeg"
  const Image61 := "https://jkconnect.s3.ap-south-1.amazonaws.com/public/1634889868241-0.3109910774029814.png"
  const Image71 := "https://jkconnect.s3.ap-south-1.amazonaws.com/public/1634889899439-0.09915334029250378.jpeg"
  const ImageB1 := "https://jkconnect.s3.ap-south-1.amazonaws.com/public/1634889990036-0.8975878953096517.png"
  const ImageD := "https://jkconnect.s3.ap-south-1.amazonaws.com/public/1634890052495-0.5132823155752646.png"
  const ImageH1 := "https://jkconnect.s3.ap-south-1.amazonaws.com/public/1634890087935-0.2171354842809059.jpeg"
  const ImageS1 := "https://jkconnect.s3.ap-south-1.amazonaws.com/public/1634890123277-0.048489361551903976.png"

  /** The category to image table. */
  const CatImages: map<string, string> :=
    map["11" := ImageTyre, "12" := ImageTyre, "21" := ImageTube, "22" := ImageTube,
        "31" := ImageFlap, "32" := ImageFlap, "41" := ImageFlap, "42" := ImageFlap,
        "51" := Image51, "52" := Image51, "61" := Image61, "71" := Image71,
        "81" := ImageFlap, "91" := ImageFlap, "B1" := ImageB1, "D1" := ImageD,
        "D2" := ImageD, "H1" := ImageH1, "S1" := ImageS1, "R0" := ImageFlap]

  /** `catImages[CatCode]`: the table's url, `undefined` for other codes.
      The run passes `CatImages` as `images`. */
  function ImageUrl(images: map<string, string>, catCode: Value): (u: Value)
    ensures catCode.Str? && catCode.s in images ==> u == Str(images[catCode.s])
    ensures !(catCode.Str? && catCode.s in images) ==> u == Undefined
  {
    if catCode.Str? && catCode.s in images then Str(images[catCode.s]) else Undefined
  }

  /** `Patternmaster ? Patternmaster.Ydesc : null`, looking the pattern up
      by the record's two codes. */
  function TyrePattern(pats: Collection<PatternSync.PatKey>, val: Row): (p: Value)
    ensures var k := PatternSync.PatKey(Field(val, "PatCode"), Field(val, "CatCode"));
      (k in pats ==> p == Lookup(pats[k], "Ydesc")) && (k !in pats ==> p == Null)
  {
    var k := PatternSync.PatKey(Field(val, "PatCode"), Field(val, "CatCode"));
    if k in pats then Lookup(pats[k], "Ydesc") else Null
  }

  /** Fields copied from the record unchanged: (product field, record field). */
  const Copied: seq<(string, string)> :=
    [("ClaimFlag", "ClaimFlag"), ("Flag", "SoFlag"), ("Catcode", "CatCode"), ("Catg", "Catg"),
     ("prodSize", "Prodsize"), ("MatDesc", "MatDesc"), ("brand", "Brand"), ("subBrand", "SubBrand"),
     ("TtType", "TtType"), ("aspectRat", "AspectRat"), ("LoadIndex", "LoadIndex"), ("plyRating", "PlyRating"),
     ("ParentSku", "ParentSku"), ("NsdFlag", "NsdFlag"), ("PremiumFlag", "PremSku"), ("BrandDesc", "BrandDesc"),
     ("SubBrandDesc", "SubbrndDesc")]

  /** The copied part of the `$set`; fields the record lacks are dropped. */
  function CopyFields(val: Row, pairs: seq<(string, string)>): (d: Doc)
    ensures forall k :: k in d ==> exists i :: 0 <= i < |pairs| && pairs[i].0 == k
    ensures forall i :: 0 <= i < |pairs| && pairs[i].1 in val && (forall j :: i < j < |pairs| ==> pairs[j].0 != pairs[i].0) ==>
      pairs[i].0 in d && d[pairs[i].0] == Str(val[pairs[i].1])
    decreases |pairs|
  {
    if pairs == [] then map[]
    else
      var init := pairs[..|pairs| - 1];
      var rest := CopyFields(val, init);
      assert forall i :: 0 <= i < |init| ==> init[i] == pairs[i];
      Put(rest, pairs[|pairs| - 1].0, Field(val, pairs[|pairs| - 1].1))
  }

  /** No copied field is one the schema defaults, the variants list or
      the image. */
  lemma CopiedTargets()
    ensures forall i :: 0 <= i < |Copied| ==>
      Copied[i].0 != "companyName" && Copied[i].0 != "active" && Copied[i].0 != "Musthave" &&
      Copied[i].0 != "materialNo" && Copied[i].0 != "jkStock" && Copied[i].0 != "imageUrl"
  {
  }

  /** The two tables a product's `$set` is built from: the copied fields
      and the category images. */
  datatype Tables = Tables(copied: seq<(string, string)>, images: map<string, string>)

  const Standard := Tables(Copied, CatImages)

  /** The computed part of the `$set`; `DerivedFields` and `DerivedLookups`
      state what each of its fields holds. */
  function Derived(val: Row, pats: Collection<PatternSync.PatKey>, t: Tables): (d: Doc)
    requires "Matnr" in val && "ProdTitle" in val
    ensures "companyName" !in d
  {
    var matnr := val["Matnr"];
    var m := map[
      "ParentFlg" := ParentFlag(Field(val, "ParentFlg")),
      "materialNo" := Str(matnr),
      "productName" := Str(val["ProdTitle"]),
      "productNameSearch" := Str(Text.StripNonAlnum(val["ProdTitle"])),
      "productType" := Str(ProductType(matnr)),
      "Const" := Str(ConstName(Field(val, "Const")))];
    Put(Put(m, "imageUrl", ImageUrl(t.images, Field(val, "CatCode"))), "tyrePattern", TyrePattern(pats, val))
  }

  /** The fields computed from the record alone: its number, its title
      and the type read off the number. */
  lemma DerivedFields(val: Row, pats: Collection<PatternSync.PatKey>, t: Tables)
    requires "Matnr" in val && "ProdTitle" in val
    ensures var d := Derived(val, pats, t);
      Lookup(d, "materialNo") == Str(val["Matnr"]) && Lookup(d, "productName") == Str(val["ProdTitle"]) &&
      Lookup(d, "productType") == Str(ProductType(val["Matnr"]))
  {
  }

  /** The search name, the construction and the parent flag. */
  lemma DerivedFlags(val: Row, pats: Collection<PatternSync.PatKey>, t: Tables)
    requires "Matnr" in val && "ProdTitle" in val
    ensures var d := Derived(val, pats, t);
      Lookup(d, "productNameSearch") == Str(Text.StripNonAlnum(val["ProdTitle"])) &&
      Lookup(d, "Const") == Str(ConstName(Field(val, "Const"))) &&
      Lookup(d, "ParentFlg") == ParentFlag(Field(val, "ParentFlg"))
  {
  }

  /** The fields looked up in the image table and the pattern collection;
      a lookup that yields `undefined` leaves its field out. */
  lemma DerivedLookups(val: Row, pats: Collection<PatternSync.PatKey>, t: Tables)
    requires "Matnr" in val && "ProdTitle" in val
    ensures var d := Derived(val, pats, t);
      Lookup(d, "imageUrl") == ImageUrl(t.images, Field(val, "CatCode")) &&
      Lookup(d, "tyrePattern") == TyrePattern(pats, val) &&
      d.Keys <= {"ParentFlg", "materialNo", "productName", "productNameSearch", "productType", "Const",
                 "imageUrl", "tyrePattern"}
  {
  }

  /** The `updateMany({ materialNo: Matnr }, { $set }, { upsert: true })` of a
      record that has both `Matnr` and `ProdTitle`. */
  function ProductOp(val: Row, pats: Collection<PatternSync.PatKey>, t: Tables): (op: Upsert<Value>)
    requires "Matnr" in val && "ProdTitle" in val
    ensures op.key == Str(val["Matnr"]) && op.filter == Schemas.ProductFilter && OpKeyed(op, "materialNo")
    ensures op.update == CopyFields(val, t.copied) + Derived(val, pats, t)
    ensures op.insert == Schemas.ProductDefaults + map["materialNo" := Str(val["Matnr"])]
  {
    DerivedFields(val, pats, t);
    Upsert(Str(val["Matnr"]), Schemas.ProductFilter, Schemas.ProductDefaults + map["materialNo" := Str(val["Matnr"])],
           CopyFields(val, t.copied) + Derived(val, pats, t))
  }

  /** The records whose upsert takes effect, in order: a record lacking
      `Matnr` or `ProdTitle` throws while its `$set` is built, and
      `fails(i)` says that record i's pattern lookup or update threw; either
      way it is logged and skipped. */
  function Survivors(recs: seq<Row>, fails: nat -> bool): (rows: seq<Row>)
    ensures |rows| <= |recs|
    ensures forall r :: r in rows ==> "Matnr" in r && "ProdTitle" in r
    decreases |recs|
  {
    if recs == [] then []
    else
      var n := |recs| - 1;
      Survivors(recs[..n], fails) + (if !fails(n) && "Matnr" in recs[n] && "ProdTitle" in recs[n] then [recs[n]] else [])
  }

  /** The upserts of the surviving records, in order. */
  function Written(recs: seq<Row>, pats: Collection<PatternSync.PatKey>, t: Tables, fails: nat -> bool): (ops: seq<Upsert<Value>>)
  {
    Ops(Survivors(recs, fails), pats, t)
  }

  function Ops(rows: seq<Row>, pats: Collection<PatternSync.PatKey>, t: Tables): (ops: seq<Upsert<Value>>)
    requires forall r :: r in rows ==> "Matnr" in r && "ProdTitle" in r
  {
    seq(|rows|, k requires 0 <= k < |rows| => ProductOp(rows[k], pats, t))
  }

  /** How the run ends: it resolves, it hands the error (with its
      `statusCode`) to `next`, or it rejects because `SyncLog.create` did. */
  datatype Ending = Resolved | ToNext(statusCode: int, message: string) | CreateFailed

  /** The product job's run. `eventCode` is `req.query.eventCode` and `user`
      `req.user._id` (both `None` when the job calls it without a request);
      `hasNext` says whether `next` was given; `reply` is the SKUMstSet
      answer; `shapeError` is the TypeError text the runtime gives when the
      reply has no `d.results` list; `fails` as in `Written`. */
  method SyncProductMaster(products: Collection<Value>, pats: Collection<PatternSync.PatKey>,
                           eventCode: Option<string>, user: Option<string>, hasNext: bool,
                           reply: Attempt, shapeError: string, fails: nat -> bool)
    returns (products': Collection<Value>, log: Option<SyncLog>, ending: Ending)
    ensures var action := if eventCode.Some? then eventCode.value else DefaultAction;
      var g := Try(Default2xx, reply);
      if action == "" then products' == products && log.None? && ending == CreateFailed
      else if g.Got? && g.resp.body.Results? then
        products' == ApplyAll(products, Written(g.resp.body.rows, pats, Standard, fails)) &&
        log == Some(Create(action, user).(status := Successful)) && ending == Resolved
      else
        var msg := if g.Threw? then Message(g.err) else shapeError;
        products' == products && log == Some(Fail(Create(action, user), msg)) &&
        ending == (if hasNext then ToNext(400, msg) else Resolved)
  {
    var action := if eventCode.Some? then eventCode.value else DefaultAction;
    products' := products;
    if action == "" {
      // `action` is required: the create is rejected with a validation
      // error before the `try`, so neither the log nor `next` sees it
      log := None;
      ending := CreateFailed;
      return;
    }
    var entry := Create(action, user);
    var g := Try(Default2xx, reply);
    if g.Threw? || !g.resp.body.Results? {
      var msg := if g.Threw? then Message(g.err) else shapeError;
      log := Some(Fail(entry, msg));
      ending := if hasNext then ToNext(400, msg) else Resolved;
      return;
    }
    products' := WriteAll(products, g.resp.body.rows, pats, Standard, fails);
    log := Some(entry.(status := Successful));
    ending := Resolved;
  }

  /** The `for` loop over `d.results`, one `updateMany` per surviving
      record, each inside its own `try`. */
  method WriteAll(products: Collection<Value>, data: seq<Row>, pats: Collection<PatternSync.PatKey>, t: Tables, fails: nat -> bool)
    returns (products': Collection<Value>)
    ensures products' == ApplyAll(products, Written(data, pats, t, fails))
  {
    products' := products;
    var i := 0;
    while i < |data|
      invariant 0 <= i <= |data|
      invariant products' == ApplyAll(products, Written(data[..i], pats, t, fails))
    {
      WrittenStep(products, data, pats, t, fails, i);
      if !fails(i) && "Matnr" in data[i] && "ProdTitle" in data[i] {
        products' := Apply(products', ProductOp(data[i], pats, t));
      }
      i := i + 1;
    }
    assert data[..|data|] == data;
  }

  /** The loop step: record i's upsert lands after the earlier ones when
      the record survives, and nothing happens otherwise. */
  lemma WrittenStep(products: Collection<Value>, data: seq<Row>, pats: Collection<PatternSync.PatKey>, t: Tables,
                    fails: nat -> bool, i: nat)
    requires i < |data|
    ensures var before := ApplyAll(products, Written(data[..i], pats, t, fails));
      ApplyAll(products, Written(data[..i + 1], pats, t, fails)) ==
        if !fails(i) && "Matnr" in data[i] && "ProdTitle" in data[i] then Apply(before, ProductOp(data[i], pats, t))
        else before
  {
    WrittenSnoc(data[..i + 1], pats, t, fails);
    assert data[..i + 1][..i] == data[..i];
    var before := Written(data[..i], pats, t, fails);
    if !fails(i) && "Matnr" in data[i] && "ProdTitle" in data[i] {
      ApplyAllSnoc(products, before, ProductOp(data[i], pats, t));
    } else {
      assert before + [] == before;
    }
  }

  /** One more record adds its upsert, if it survives, after the others. */
  lemma WrittenSnoc(recs: seq<Row>, pats: Collection<PatternSync.PatKey>, t: Tables, fails: nat -> bool)
    requires recs != []
    ensures var n := |recs| - 1;
      Written(recs, pats, t, fails) == Written(recs[..n], pats, t, fails) +
        (if !fails(n) && "Matnr" in recs[n] && "ProdTitle" in recs[n] then [ProductOp(recs[n], pats, t)] else [])
  {
    var n := |recs| - 1;
    var rows := Survivors(recs[..n], fails);
    if !fails(n) && "Matnr" in recs[n] && "ProdTitle" in recs[n] {
      assert Survivors(recs, fails) == rows + [recs[n]];
      OpsSnoc(rows, recs[n], pats, t);
    }
  }

  lemma OpsSnoc(rows: seq<Row>, r: Row, pats: Collection<PatternSync.PatKey>, t: Tables)
    requires forall x :: x in rows + [r] ==> "Matnr" in x && "ProdTitle" in x
    ensures Ops(rows + [r], pats, t) == Ops(rows, pats, t) + [ProductOp(r, pats, t)]
  {
    var a := Ops(rows + [r], pats, t);
    var b := Ops(rows, pats, t) + [ProductOp(r, pats, t)];
    forall k | 0 <= k < |a| ensures a[k] == b[k] {
      if k < |rows| {
        assert (rows + [r])[k] == rows[k];
      }
    }
  }

  // ---------------------------------------------------------------------
  // Properties

  /** `productNameSearch` is alphanumeric and stripping it again changes
      nothing. */
  lemma NameSearchClean(title: string)
    ensures forall i :: 0 <= i < |Text.StripNonAlnum(title)| ==> Text.IsAlnum(Text.StripNonAlnum(title)[i])
    ensures Text.StripNonAlnum(Text.StripNonAlnum(title)) == Text.StripNonAlnum(title)
  {
    Text.StripIdempotent(title);
  }

  /** Every stored product is a valid product document. */
  predicate AllValid(c: Collection<Value>)
  {
    forall k :: k in c ==> Schemas.ProductValid(c[k])
  }

  /** No copied field overwrites the company the schema requires. */
  predicate KeepsCompany(t: Tables)
  {
    forall i :: 0 <= i < |t.copied| ==> t.copied[i].0 != "companyName"
  }

  lemma StandardKeepsCompany()
    ensures KeepsCompany(Standard)
  {
    CopiedTargets();
  }

  /** A copy table that never targets field `f`. */
  predicate Avoids(t: Tables, f: string)
  {
    forall i :: 0 <= i < |t.copied| ==> t.copied[i].0 != f
  }

  /** The source's copy table targets none of the defaulted fields, the
      variants or the image. */
  lemma StandardAvoids(f: string)
    requires f == "companyName" || f == "active" || f == "jkStock" || f == "Musthave" || f == "imageUrl"
    ensures Avoids(Standard, f)
  {
    CopiedTargets();
  }

  /** The computed part leaves the defaulted fields and the variants alone. */
  lemma DerivedAvoids(val: Row, pats: Collection<PatternSync.PatKey>, t: Tables, f: string)
    requires "Matnr" in val && "ProdTitle" in val
    requires f == "companyName" || f == "active" || f == "jkStock" || f == "Musthave"
    ensures f !in Derived(val, pats, t)
  {
    DerivedLookups(val, pats, t);
  }

  /** The `$set` of a record sets no field the copy table avoids and the
      computed part lacks. */
  lemma UpdateAvoids(val: Row, pats: Collection<PatternSync.PatKey>, t: Tables, f: string)
    requires "Matnr" in val && "ProdTitle" in val && Avoids(t, f) && f !in Derived(val, pats, t)
    ensures f !in ProductOp(val, pats, t).update
  {
    CopyAvoids(val, t.copied, f);
  }

  /** A record whose material number is new inserts a product with the
      schema defaults (company JK, no stock, active and so visible, no
      variants) and its own number, under any copy table that avoids the
      defaulted fields, the source's among them (`StandardAvoids`). */
  lemma NewProductStored(c: Collection<Value>, val: Row, pats: Collection<PatternSync.PatKey>, t: Tables)
    requires "Matnr" in val && "ProdTitle" in val && Str(val["Matnr"]) !in c
    requires Avoids(t, "companyName") && Avoids(t, "jkStock") && Avoids(t, "active") && Avoids(t, "Musthave")
    ensures var d := Apply(c, ProductOp(val, pats, t))[Str(val["Matnr"])];
      Lookup(d, "companyName") == Str("JK") && Lookup(d, "jkStock") == Num(0) &&
      Lookup(d, "active") == Bool(true) && Visible(d) && Lookup(d, "Musthave") == Undefined &&
      Lookup(d, "materialNo") == Str(val["Matnr"])
  {
    var op := ProductOp(val, pats, t);
    var d := op.insert + op.update;
    assert Apply(c, op)[op.key] == d;
    InsertDefaults(val["Matnr"]);
    KeepsInserted(c, val, pats, t, "companyName");
    KeepsInserted(c, val, pats, t, "jkStock");
    KeepsInserted(c, val, pats, t, "active");
    KeepsInserted(c, val, pats, t, "Musthave");
  }

  /** What a new product starts from. */
  lemma InsertDefaults(matnr: string)
    ensures var d := Schemas.ProductDefaults + map["materialNo" := Str(matnr)];
      Lookup(d, "companyName") == Str("JK") && Lookup(d, "jkStock") == Num(0) &&
      Lookup(d, "active") == Bool(true) && Lookup(d, "Musthave") == Undefined
  {
  }

  /** An inserted field the `$set` avoids keeps its inserted value. */
  lemma KeepsInserted(c: Collection<Value>, val: Row, pats: Collection<PatternSync.PatKey>, t: Tables, f: string)
    requires "Matnr" in val && "ProdTitle" in val
    requires f == "companyName" || f == "active" || f == "jkStock" || f == "Musthave"
    requires Avoids(t, f)
    ensures var op := ProductOp(val, pats, t);
      Lookup(op.insert + op.update, f) == Lookup(op.insert, f)
  {
    DerivedAvoids(val, pats, t, f);
    UpdateAvoids(val, pats, t, f);
  }

  /** Updating a stored product leaves its company, its `active` flag, its
      stock and its variants as they were: the `$set` targets none of them. */
  lemma ExistingKeepsDefaults(c: Collection<Value>, val: Row, pats: Collection<PatternSync.PatKey>, t: Tables, f: string)
    requires "Matnr" in val && "ProdTitle" in val && Str(val["Matnr"]) in c
    requires f == "companyName" || f == "active" || f == "jkStock" || f == "Musthave"
    requires Avoids(t, f)
    ensures Lookup(Apply(c, ProductOp(val, pats, t))[Str(val["Matnr"])], f) == Lookup(c[Str(val["Matnr"])], f)
  {
    var op := ProductOp(val, pats, t);
    DerivedAvoids(val, pats, t, f);
    UpdateAvoids(val, pats, t, f);
    assert Apply(c, op)[op.key] == c[op.key] + op.update;
  }

  /** The `$set` carries the image table's entry for the category code, and
      no image at all for a code outside the table, whatever the copy
      table holds as long as it avoids the image field. */
  lemma ProductImage(val: Row, pats: Collection<PatternSync.PatKey>, t: Tables)
    requires "Matnr" in val && "ProdTitle" in val && Avoids(t, "imageUrl")
    ensures var u := ProductOp(val, pats, t).update;
      var code := Field(val, "CatCode");
      (code.Str? && code.s in t.images ==> Lookup(u, "imageUrl") == Str(t.images[code.s])) &&
      (!(code.Str? && code.s in t.images) ==> Lookup(u, "imageUrl") == Undefined)
  {
    CopyAvoids(val, t.copied, "imageUrl");
    DerivedLookups(val, pats, t);
    var u := ProductOp(val, pats, t).update;
    assert Lookup(u, "imageUrl") == Lookup(Derived(val, pats, t), "imageUrl");
  }

  /** A field no copied pair targets is absent from the copied part. */
  lemma {:induction false} CopyAvoids(val: Row, pairs: seq<(string, string)>, f: string)
    requires forall i :: 0 <= i < |pairs| ==> pairs[i].0 != f
    ensures f !in CopyFields(val, pairs)
  {
  }

  /** A record with a non-empty material number and title keeps the
      collection valid when upserted. */
  lemma ProductOpValid(c: Collection<Value>, val: Row, pats: Collection<PatternSync.PatKey>, t: Tables)
    requires KeepsCompany(t)
    requires AllValid(c) && "Matnr" in val && "ProdTitle" in val && val["Matnr"] != "" && val["ProdTitle"] != ""
    ensures AllValid(Apply(c, ProductOp(val, pats, t)))
  {
    var op := ProductOp(val, pats, t);
    var d := Derived(val, pats, t);
    CopyAvoids(val, t.copied, "companyName");
    DerivedFields(val, pats, t);
    SetKeepsValid(c, op, CopyFields(val, t.copied), d);
  }

  lemma SetKeepsValid(c: Collection<Value>, op: Upsert<Value>, copied: Doc, d: Doc)
    requires AllValid(c) && op.update == copied + d
    requires "companyName" in op.insert && op.insert["companyName"] == Str("JK")
    requires "companyName" !in copied && "companyName" !in d
    requires Lookup(d, "productName").Str? && Lookup(d, "productName").s != ""
    requires Lookup(d, "productType").Str? && Lookup(d, "productType").s != ""
    requires Lookup(d, "materialNo").Str? && Lookup(d, "materialNo").s != ""
    ensures AllValid(Apply(c, op))
  {
    var base := if op.key in c && Matches(op.filter, c[op.key]) then c[op.key] else op.insert;
    assert Schemas.ProductValid(base + op.update);
  }

  /** One write per surviving record: when nothing fails, each record with
      a material number and title that no later record overrides ends up
      stored under its material number with its derived fields. */
  lemma ProductRecordStored(products: Collection<Value>, recs: seq<Row>, pats: Collection<PatternSync.PatKey>, t: Tables, i: nat)
    requires forall k :: 0 <= k < |recs| ==> "Matnr" in recs[k] && "ProdTitle" in recs[k]
    requires i < |recs| && forall j :: i < j < |recs| ==> recs[j]["Matnr"] != recs[i]["Matnr"]
    ensures var c := ApplyAll(products, Written(recs, pats, t, _ => false));
      var key := Str(recs[i]["Matnr"]);
      key in c && SubDoc(ProductOp(recs[i], pats, t).update, c[key])
  {
    var ops := Written(recs, pats, t, _ => false);
    AllSurvive(recs, _ => false);
    assert Uniform(ops, AnyDoc);
    LastWriteWins(products, ops, AnyDoc, i);
  }

  /** When no record fails and each has its two fields, every record
      survives. */
  lemma {:induction false} AllSurvive(recs: seq<Row>, fails: nat -> bool)
    requires forall k :: 0 <= k < |recs| ==> "Matnr" in recs[k] && "ProdTitle" in recs[k] && !fails(k)
    ensures Survivors(recs, fails) == recs
    decreases |recs|
  {
    if recs != [] {
      var n := |recs| - 1;
      AllSurvive(recs[..n], fails);
      assert recs[..n] + [recs[n]] == recs;
    }
  }

  /** Failure isolation: every survivor is a record that did not fail and
      has both fields. */
  lemma {:induction false} SurvivorsFrom(recs: seq<Row>, fails: nat -> bool)
    ensures forall r :: r in Survivors(recs, fails) ==>
      exists k :: 0 <= k < |recs| && !fails(k) && "Matnr" in recs[k] && "ProdTitle" in recs[k] && r == recs[k]
    decreases |recs|
  {
    if recs != [] {
      var n := |recs| - 1;
      SurvivorsFrom(recs[..n], fails);
      forall r | r in Survivors(recs, fails)
        ensures exists k :: 0 <= k < |recs| && !fails(k) && "Matnr" in recs[k] && "ProdTitle" in recs[k] && r == recs[k]
      {
        if r in Survivors(recs[..n], fails) {
          var k :| 0 <= k < n && !fails(k) && "Matnr" in recs[..n][k] && "ProdTitle" in recs[..n][k] && r == recs[..n][k];
          assert recs[..n][k] == recs[k];
        }
      }
    }
  }

  /** The run's writes are those of the surviving records alone. */
  lemma WrittenOnlySurvivors(recs: seq<Row>, pats: Collection<PatternSync.PatKey>, t: Tables, fails: nat -> bool)
    ensures forall op :: op in Written(recs, pats, t, fails) ==>
      exists k :: 0 <= k < |recs| && !fails(k) && "Matnr" in recs[k] && "ProdTitle" in recs[k] && op == ProductOp(recs[k], pats, t)
  {
    var rows := Survivors(recs, fails);
    var ops := Written(recs, pats, t, fails);
    SurvivorsFrom(recs, fails);
    forall op | op in ops
      ensures exists k :: 0 <= k < |recs| && !fails(k) && "Matnr" in recs[k] && "ProdTitle" in recs[k] && op == ProductOp(recs[k], pats, t)
    {
      var j :| 0 <= j < |ops| && ops[j] == op;
      assert rows[j] in rows;
      var k :| 0 <= k < |recs| && !fails(k) && "Matnr" in recs[k] && "ProdTitle" in recs[k] && rows[j] == recs[k];
      assert op == ProductOp(recs[k], pats, t);
    }
  }

  /** After a run no two stored products share a material number. */
  lemma RunMaterialNoUnique(products: Collection<Value>, recs: seq<Row>, pats: Collection<PatternSync.PatKey>,
                            fails: nat -> bool, k1: Value, k2: Value)
    requires KeyedBy(products, "materialNo")
    ensures var c := ApplyAll(products, Written(recs, pats, Standard, fails));
      k1 in c && k2 in c && k1 != k2 ==> Lookup(c[k1], "materialNo") != Lookup(c[k2], "materialNo")
  {
    ProductSnapshot(products, recs, pats, Standard, fails);
  }

  /** The collection stays keyed by material number, and re-running a
      snapshot with the same failures changes nothing. */
  lemma ProductSnapshot(products: Collection<Value>, recs: seq<Row>, pats: Collection<PatternSync.PatKey>, t: Tables, fails: nat -> bool)
    requires KeyedBy(products, "materialNo")
    ensures var once := ApplyAll(products, Written(recs, pats, t, fails));
      KeyedBy(once, "materialNo") && ApplyAll(once, Written(recs, pats, t, fails)) == once
  {
    var ops := Written(recs, pats, t, fails);
    WrittenOnlySurvivors(recs, pats, t, fails);
    forall j | 0 <= j < |ops| ensures OpKeyed(ops[j], "materialNo") && ops[j].filter == AnyDoc {
      assert ops[j] in ops;
    }
    ApplyAllKeyed(products, ops, "materialNo");
    Idempotent(products, ops, AnyDoc);
  }
}
