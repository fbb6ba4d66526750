/** The document shapes the jobs write: products, customer hubs and
    customer fleets, with the defaults a newly inserted document receives,
    the required fields and the enum, and which collections hide
    soft-deleted documents from `find*` queries. */
module Schemas {
  import opened Store

  // ---------------------------------------------------------------------
  // Products (the same schema in the size and tyre-tube mapping services)

  /** Defaults of a new product: `companyName` "JK", `jkStock` 0,
      `ClaimFlag` "" and `active` true. */
  const ProductDefaults: Doc :=
    map["companyName" := Str("JK"), "jkStock" := Num(0), "ClaimFlag" := Str(""), "active" := Bool(true)]

  /** The product schema registers no `find*` hook: updates match every
      document, soft-deleted or not. */
  const ProductFilter: Filter := AnyDoc

  /** A required string path: present and not empty. */
  predicate HasText(d: Doc, f: string)
  {
    f in d && d[f].Str? && d[f].s != ""
  }

  predicate ProductValid(d: Doc)
  {
    "companyName" in d && d["companyName"] in {Str("CIL"), Str("JK")} &&
    HasText(d, "productName") && HasText(d, "productType") && HasText(d, "materialNo")
  }

  // ---------------------------------------------------------------------
  // Customer hubs and customer fleets

  /** Defaults of a new hub: `active` true. */
  const HubDefaults: Doc := map["active" := Bool(true)]

  /** Defaults of a new fleet. */
  const FleetDefaults: Doc :=
    map["enableReplacementWithoutInspection" := Bool(false), "isMobility" := Bool(true),
        "canCreateOrder" := Bool(true), "active" := Bool(true)]

  /** Both schemas register `pre(/^find/)` adding `active: { $ne: false }`:
      a `findOneAndUpdate` on them only matches visible documents. */
  const HubFilter: Filter := LiveOnly
  const FleetFilter: Filter := LiveOnly

  predicate HubValid(d: Doc)
  {
    HasText(d, "hubCode") && HasText(d, "hubName") && HasText(d, "fleetCode")
  }

  predicate FleetValid(d: Doc)
  {
    HasText(d, "fleetCode") && HasText(d, "fleetName")
  }

  /** Defaults never hide a new document: a document with `active` missing
      or true stays visible, and only `active: false` hides it. */
  lemma DefaultsVisible()
    ensures Visible(HubDefaults) && Visible(FleetDefaults) && Visible(ProductDefaults)
    ensures forall d: Doc :: "active" !in d ==> Visible(d)
    ensures forall d: Doc :: "active" in d && d["active"] == Bool(true) ==> Visible(d)
    ensures !Visible(map["active" := Bool(false)])
  {
  }
}
