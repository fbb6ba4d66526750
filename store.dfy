/** The document store the jobs write into, abstracted from MongoDB.
    A collection maps a natural key to one document; a document maps field
    names to values. An upsert with `$set` overwrites the named fields and
    keeps the rest; inserting applies the schema defaults first. */
module Store {

  datatype Option<T> = None | Some(value: T)

  /** A field value. `Undefined` is JavaScript's `undefined` (a missing
      property); `List` is an array field such as `hubs` or `Musthave`. */
  datatype Value = Str(s: string) | Num(n: int) | Bool(b: bool) | Null | Undefined | List(items: seq<Value>)

  type Doc = map<string, Value>

  /** One upstream record: the OData service returns string properties. */
  type Row = map<string, string>

  type Collection<K> = map<K, Doc>

  /** `record.f` on an upstream record. */
  function Field(r: Row, f: string): Value
  {
    if f in r then Str(r[f]) else Undefined
  }

  /** `doc.f` on a stored document. */
  function Lookup(d: Doc, f: string): Value
  {
    if f in d then d[f] else Undefined
  }

  /** The elements of an array field; a missing field reads as no elements. */
  function Items(v: Value): seq<Value>
  {
    if v.List? then v.items else []
  }

  /** The soft-delete filter `{ active: { $ne: false } }`: a document is
      visible unless its `active` field holds `false`. */
  predicate Visible(d: Doc)
  {
    !("active" in d && d["active"] == Bool(false))
  }

  /** Which documents an update's filter may match: every document with the
      key, or (under a `pre(/^find/)` hook) only the visible ones. */
  datatype Filter = AnyDoc | LiveOnly

  predicate Matches(flt: Filter, d: Doc)
  {
    flt == AnyDoc || Visible(d)
  }

  /** One `updateOne`/`findOneAndUpdate` with `upsert: true`: `insert` is the
      document created when nothing matches (schema defaults and the filter's
      equality fields), `set` is the `$set` document. */
  datatype Upsert<K> = Upsert(key: K, filter: Filter, insert: Doc, update: Doc)

  function Apply<K(==)>(c: Collection<K>, op: Upsert<K>): Collection<K>
  {
    var base := if op.key in c && Matches(op.filter, c[op.key]) then c[op.key] else op.insert;
    c[op.key := base + op.update]
  }

  /** The operations applied one after another, in order. */
  function ApplyAll<K(==)>(c: Collection<K>, ops: seq<Upsert<K>>): Collection<K>
    decreases |ops|
  {
    if ops == [] then c else Apply(ApplyAll(c, ops[..|ops| - 1]), ops[|ops| - 1])
  }

  function KeysOf<K(==)>(ops: seq<Upsert<K>>): set<K>
  {
    set i | 0 <= i < |ops| :: ops[i].key
  }

  /** All `$set` documents aimed at key `k`, merged in order (a later one wins). */
  function SetsOn<K(==)>(ops: seq<Upsert<K>>, k: K): Doc
    decreases |ops|
  {
    if ops == [] then map[]
    else SetsOn(ops[..|ops| - 1], k) + (if ops[|ops| - 1].key == k then ops[|ops| - 1].update else map[])
  }

  /** Every field of `small` is present in `d` with the same value. */
  predicate SubDoc(small: Doc, d: Doc)
  {
    forall f :: f in small ==> f in d && d[f] == small[f]
  }

  /** All operations use filter `flt`; under the soft-delete hook they also
      never insert or set `active: false`. */
  predicate Uniform<K(==)>(ops: seq<Upsert<K>>, flt: Filter)
  {
    forall i :: 0 <= i < |ops| ==>
      ops[i].filter == flt && (flt == LiveOnly ==> Visible(ops[i].insert) && Visible(ops[i].update))
  }

  lemma VisibleUnion(a: Doc, b: Doc)
    requires Visible(a) && Visible(b)
    ensures Visible(a + b)
  {
  }

  lemma SubDocUnion(d: Doc, s: Doc)
    requires SubDoc(s, d)
    ensures d + s == d
  {
    assert forall f :: f in d + s ==> f in d && (d + s)[f] == d[f];
  }

  lemma UnionEmpty(d: Doc)
    ensures d + map[] == d
  {
  }

  lemma KeysOfPrefix<K>(ops: seq<Upsert<K>>)
    requires ops != []
    ensures KeysOf(ops) == KeysOf(ops[..|ops| - 1]) + {ops[|ops| - 1].key}
  {
    var init := ops[..|ops| - 1];
    forall k | k in KeysOf(ops)
      ensures k in KeysOf(init) + {ops[|ops| - 1].key}
    {
      var i :| 0 <= i < |ops| && ops[i].key == k;
      if i < |ops| - 1 { assert init[i].key == k; }
    }
    forall k | k in KeysOf(init)
      ensures k in KeysOf(ops)
    {
      var i :| 0 <= i < |init| && init[i].key == k;
      assert ops[i].key == k;
    }
  }

  lemma UniformPrefix<K>(ops: seq<Upsert<K>>, flt: Filter, n: nat)
    requires Uniform(ops, flt) && n <= |ops|
    ensures Uniform(ops[..n], flt)
  {
  }

  /** No operation touches key `k`: nothing was merged for it. */
  lemma {:induction false} SetsOnUntouched<K>(ops: seq<Upsert<K>>, k: K)
    requires k !in KeysOf(ops)
    ensures SetsOn(ops, k) == map[]
    decreases |ops|
  {
    if ops != [] {
      KeysOfPrefix(ops);
      SetsOnUntouched(ops[..|ops| - 1], k);
    }
  }

  lemma {:induction false} SetsOnVisible<K>(ops: seq<Upsert<K>>, k: K)
    requires Uniform(ops, LiveOnly)
    ensures Visible(SetsOn(ops, k))
    decreases |ops|
  {
    if ops != [] {
      var init := ops[..|ops| - 1];
      SetsOnVisible(init, k);
      var last := ops[|ops| - 1];
      var tail: Doc := if last.key == k then last.update else map[];
      VisibleUnion(SetsOn(init, k), tail);
    }
  }

  /** The keys of the result are the old keys plus every key written. */
  lemma {:induction false} ApplyAllKeys<K>(c: Collection<K>, ops: seq<Upsert<K>>)
    ensures ApplyAll(c, ops).Keys == c.Keys + KeysOf(ops)
    decreases |ops|
  {
    if ops != [] {
      ApplyAllKeys(c, ops[..|ops| - 1]);
      KeysOfPrefix(ops);
    }
  }

  /** Nothing else changes: a key no operation names keeps its document. */
  lemma {:induction false} ApplyAllUntouched<K>(c: Collection<K>, ops: seq<Upsert<K>>, k: K)
    requires k in c && k !in KeysOf(ops)
    ensures k in ApplyAll(c, ops) && ApplyAll(c, ops)[k] == c[k]
    decreases |ops|
  {
    if ops != [] {
      KeysOfPrefix(ops);
      ApplyAllUntouched(c, ops[..|ops| - 1], k);
    }
  }

  /** After the operations, every written key holds a document the same
      operations would match again. */
  lemma {:induction false} Cover<K>(c: Collection<K>, ops: seq<Upsert<K>>, flt: Filter)
    requires Uniform(ops, flt)
    ensures forall k :: k in KeysOf(ops) ==> k in ApplyAll(c, ops) && Matches(flt, ApplyAll(c, ops)[k])
    decreases |ops|
  {
    if ops != [] {
      var init := ops[..|ops| - 1];
      var last := ops[|ops| - 1];
      UniformPrefix(ops, flt, |ops| - 1);
      Cover(c, init, flt);
      KeysOfPrefix(ops);
      var c0 := ApplyAll(c, init);
      if flt == LiveOnly {
        assert last.filter == LiveOnly && Visible(last.insert) && Visible(last.update);
        var base := if last.key in c0 && Matches(last.filter, c0[last.key]) then c0[last.key] else last.insert;
        VisibleUnion(base, last.update);
      }
    }
  }

  /** The last value written to each field of a key is the value it holds. */
  lemma {:induction false} Absorb<K>(c: Collection<K>, ops: seq<Upsert<K>>, flt: Filter)
    requires Uniform(ops, flt)
    ensures forall k :: k in KeysOf(ops) ==> k in ApplyAll(c, ops) && SubDoc(SetsOn(ops, k), ApplyAll(c, ops)[k])
    decreases |ops|
  {
    if ops != [] {
      var init := ops[..|ops| - 1];
      var last := ops[|ops| - 1];
      UniformPrefix(ops, flt, |ops| - 1);
      Absorb(c, init, flt);
      Cover(c, init, flt);
      Cover(c, ops, flt);
      KeysOfPrefix(ops);
      var c0 := ApplyAll(c, init);
      var r := ApplyAll(c, ops);
      assert r == Apply(c0, last);
      forall k | k in KeysOf(ops)
        ensures SubDoc(SetsOn(ops, k), r[k])
      {
        if k == last.key {
          if k !in KeysOf(init) {
            SetsOnUntouched(init, k);
          }
        }
      }
    }
  }

  /** Each document of `c` with the `$set` fields aimed at its key laid over it. */
  function Overlay<K(==)>(c: Collection<K>, ops: seq<Upsert<K>>): Collection<K>
  {
    map k | k in c :: c[k] + SetsOn(ops, k)
  }

  lemma UnionAssoc(a: Doc, b: Doc, d: Doc)
    ensures (a + b) + d == a + (b + d)
  {
  }

  lemma {:induction false} OverlayStep<K>(c: Collection<K>, ops: seq<Upsert<K>>)
    requires ops != [] && ops[|ops| - 1].key in c
    ensures Overlay(c, ops) == Overlay(c, ops[..|ops| - 1])[ops[|ops| - 1].key := Overlay(c, ops[..|ops| - 1])[ops[|ops| - 1].key] + ops[|ops| - 1].update]
  {
    var init := ops[..|ops| - 1];
    var last := ops[|ops| - 1];
    var o0 := Overlay(c, init);
    var want := o0[last.key := o0[last.key] + last.update];
    var got := Overlay(c, ops);
    forall k | k in c
      ensures got[k] == want[k]
    {
      if k == last.key {
        UnionAssoc(c[k], SetsOn(init, k), last.update);
      } else {
        UnionEmpty(SetsOn(init, k));
      }
    }
    assert got.Keys == want.Keys;
  }

  /** When every written key already holds a matching document, the result is
      each such document with the merged `$set` fields laid over it. */
  lemma {:induction false} Merged<K>(c: Collection<K>, ops: seq<Upsert<K>>, flt: Filter)
    requires Uniform(ops, flt)
    requires forall k :: k in KeysOf(ops) ==> k in c && Matches(flt, c[k])
    ensures ApplyAll(c, ops) == Overlay(c, ops)
    decreases |ops|
  {
    if ops == [] {
      assert forall k :: k in c ==> c[k] + SetsOn(ops, k) == c[k];
    } else {
      var init := ops[..|ops| - 1];
      var last := ops[|ops| - 1];
      UniformPrefix(ops, flt, |ops| - 1);
      KeysOfPrefix(ops);
      Merged(c, init, flt);
      assert last.key in KeysOf(ops);
      if flt == LiveOnly {
        SetsOnVisible(init, last.key);
        VisibleUnion(c[last.key], SetsOn(init, last.key));
      }
      OverlayStep(c, ops);
    }
  }

  /** Re-applying the same operations changes nothing. */
  lemma Idempotent<K>(c: Collection<K>, ops: seq<Upsert<K>>, flt: Filter)
    requires Uniform(ops, flt)
    ensures ApplyAll(ApplyAll(c, ops), ops) == ApplyAll(c, ops)
  {
    var c1 := ApplyAll(c, ops);
    Cover(c, ops, flt);
    Absorb(c, ops, flt);
    Merged(c1, ops, flt);
    forall k | k in c1
      ensures c1[k] + SetsOn(ops, k) == c1[k]
    {
      if k in KeysOf(ops) {
        SubDocUnion(c1[k], SetsOn(ops, k));
      } else {
        SetsOnUntouched(ops, k);
      }
    }
  }

  /** A `$set` document that no later operation on the same key overrides
      is entirely visible in the result. */
  lemma {:induction false} LastWriteWins<K>(c: Collection<K>, ops: seq<Upsert<K>>, flt: Filter, i: nat)
    requires Uniform(ops, flt) && i < |ops|
    requires forall j :: i < j < |ops| ==> ops[j].key != ops[i].key
    ensures ops[i].key in ApplyAll(c, ops) && SubDoc(ops[i].update, ApplyAll(c, ops)[ops[i].key])
  {
    assert ops[i].key in KeysOf(ops);
    Absorb(c, ops, flt);
    SetsOnSuffix(ops, i);
  }

  lemma {:induction false} SetsOnSuffix<K>(ops: seq<Upsert<K>>, i: nat)
    requires i < |ops|
    requires forall j :: i < j < |ops| ==> ops[j].key != ops[i].key
    ensures SubDoc(ops[i].update, SetsOn(ops, ops[i].key))
    decreases |ops|
  {
    var init := ops[..|ops| - 1];
    if i < |ops| - 1 {
      SetsOnSuffix(init, i);
    }
  }

  /** An object literal as mongoose sends it: keys whose value is
      `undefined` are dropped from updates and filters. */
  function Defined(m: Doc): (r: Doc)
    ensures forall f :: f in r <==> f in m && m[f] != Undefined
    ensures forall f :: f in r ==> r[f] == m[f]
  {
    map f | f in m && m[f] != Undefined :: m[f]
  }

  lemma LookupDefined(m: Doc, f: string)
    requires f in m
    ensures Lookup(Defined(m), f) == m[f]
  {
  }

  lemma DefinedWithin(m: Doc)
    ensures Defined(m).Keys <= m.Keys
  {
  }

  /** `{ ...record }`: every field of an upstream record, as a string. */
  function RowDoc(r: Row): (d: Doc)
    ensures d.Keys == r.Keys && forall f :: f in r ==> d[f] == Str(r[f])
    ensures Visible(d)
  {
    map f | f in r :: Str(r[f])
  }

  /** One key of an update document built field by field: mongoose drops a
      key whose value is `undefined`. */
  function Put(d: Doc, f: string, v: Value): (r: Doc)
    ensures v != Undefined ==> f in r && r[f] == v && r.Keys == d.Keys + {f}
    ensures v == Undefined ==> r == d
    ensures forall g :: g in d && g != f ==> g in r && r[g] == d[g]
  {
    if v == Undefined then d else d[f := v]
  }

  lemma {:induction false} ApplyAllConcat<K>(c: Collection<K>, a: seq<Upsert<K>>, b: seq<Upsert<K>>)
    ensures ApplyAll(c, a + b) == ApplyAll(ApplyAll(c, a), b)
    decreases |b|
  {
    if b == [] {
      assert a + b == a;
    } else {
      assert (a + b)[..|a + b| - 1] == a + b[..|b| - 1];
      ApplyAllConcat(c, a, b[..|b| - 1]);
    }
  }

  lemma ApplyAllSnoc<K>(c: Collection<K>, ops: seq<Upsert<K>>, op: Upsert<K>)
    ensures ApplyAll(c, ops + [op]) == Apply(ApplyAll(c, ops), op)
  {
    assert (ops + [op])[..|ops|] == ops;
  }

  lemma {:induction false} SetsOnAvoids<K>(ops: seq<Upsert<K>>, k: K, f: string)
    requires forall i :: 0 <= i < |ops| ==> f !in ops[i].update
    ensures f !in SetsOn(ops, k)
    decreases |ops|
  {
    if ops != [] {
      SetsOnAvoids(ops[..|ops| - 1], k, f);
    }
  }

  /** Operations that never set field `f`, aimed at keys already holding a
      document they match, keep every key and leave `f` of every document
      as it was. */
  lemma KeepsField<K>(c: Collection<K>, ops: seq<Upsert<K>>, flt: Filter, f: string)
    requires Uniform(ops, flt)
    requires forall i :: 0 <= i < |ops| ==> f !in ops[i].update
    requires forall k :: k in KeysOf(ops) ==> k in c && Matches(flt, c[k])
    ensures ApplyAll(c, ops).Keys == c.Keys
    ensures forall k :: k in c ==> Lookup(ApplyAll(c, ops)[k], f) == Lookup(c[k], f)
  {
    Merged(c, ops, flt);
    forall k | k in c
      ensures Lookup(ApplyAll(c, ops)[k], f) == Lookup(c[k], f)
    {
      SetsOnAvoids(ops, k, f);
    }
  }

  /** Every document records its own key in field `f` (a missing field
      reads as `undefined`, the key of documents upserted without one). */
  predicate KeyedBy(c: Collection<Value>, f: string)
  {
    forall k :: k in c ==> Lookup(c[k], f) == k
  }

  /** An upsert that writes its key into field `f` on insert and never sets
      `f` to anything else. */
  predicate OpKeyed(op: Upsert<Value>, f: string)
  {
    Lookup(op.insert, f) == op.key && (f in op.update ==> op.update[f] == op.key)
  }

  lemma {:induction false} ApplyAllKeyed(c: Collection<Value>, ops: seq<Upsert<Value>>, f: string)
    requires KeyedBy(c, f)
    requires forall i :: 0 <= i < |ops| ==> OpKeyed(ops[i], f)
    ensures KeyedBy(ApplyAll(c, ops), f)
    decreases |ops|
  {
    if ops != [] {
      ApplyAllKeyed(c, ops[..|ops| - 1], f);
      assert OpKeyed(ops[|ops| - 1], f);
    }
  }

  /** Add-if-absent, as `$addToSet` and `if (!a.includes(x)) a.push(x)` do. */
  function AddToSet(xs: seq<Value>, x: Value): (r: seq<Value>)
    ensures x in r && (forall y :: y in xs ==> y in r) && (forall y :: y in r ==> y in xs || y == x)
    ensures NoDup(xs) ==> NoDup(r)
    ensures x in xs ==> r == xs
  {
    if x in xs then xs else xs + [x]
  }

  predicate NoDup<T(==)>(s: seq<T>)
  {
    forall i, j :: 0 <= i < j < |s| ==> s[i] != s[j]
  }

  /** What a `find` on a collection with the soft-delete hook returns. */
  function FindLive<K(==)>(c: Collection<K>): (r: Collection<K>)
    ensures r.Keys <= c.Keys
    ensures forall k :: k in c ==> (k in r <==> !(Lookup(c[k], "active") == Bool(false)))
    ensures forall k :: k in r ==> r[k] == c[k]
  {
    map k | k in c && Visible(c[k]) :: c[k]
  }

  // ---------------------------------------------------------------------
  // Writes that may fail

  /** The operations whose write takes effect, in order: `lands(k)` says
      whether the k-th operation's write succeeded. */
  function Landed<K>(ops: seq<Upsert<K>>, lands: nat -> bool): (r: seq<Upsert<K>>)
    ensures |r| <= |ops|
    decreases |ops|
  {
    if ops == [] then []
    else Landed(ops[..|ops| - 1], lands) + (if lands(|ops| - 1) then [ops[|ops| - 1]] else [])
  }

  lemma {:induction false} LandedEvery<K>(ops: seq<Upsert<K>>, lands: nat -> bool)
    requires forall k: nat :: k < |ops| ==> lands(k)
    ensures Landed(ops, lands) == ops
    decreases |ops|
  {
    if ops != [] {
      LandedEvery(ops[..|ops| - 1], lands);
    }
  }

  /** A failed write touches nothing: keys no landed write aims at keep
      their document. */
  lemma {:induction false} UnlandedUntouched<K>(pats: Collection<K>, ops: seq<Upsert<K>>, lands: nat -> bool, k: K)
    requires k in pats && forall j: nat :: j < |ops| && ops[j].key == k ==> !lands(j)
    ensures k in ApplyAll(pats, Landed(ops, lands)) && ApplyAll(pats, Landed(ops, lands))[k] == pats[k]
    decreases |ops|
  {
    if ops != [] {
      var init := ops[..|ops| - 1];
      assert forall j: nat :: j < |init| ==> init[j] == ops[j];
      UnlandedUntouched(pats, init, lands, k);
      if lands(|ops| - 1) {
        assert ops[|ops| - 1].key != k;
        assert Landed(ops, lands) == Landed(init, lands) + [ops[|ops| - 1]];
        ApplyAllSnoc(pats, Landed(init, lands), ops[|ops| - 1]);
      } else {
        assert Landed(ops, lands) == Landed(init, lands);
      }
    }
  }

  /** One more write of a prefix: it changes the collection exactly when it
      lands. */
  lemma LandedStep<K>(c: Collection<K>, ops: seq<Upsert<K>>, lands: nat -> bool, n: nat)
    requires n < |ops|
    ensures ApplyAll(c, Landed(ops[..n + 1], lands)) ==
      if lands(n) then Apply(ApplyAll(c, Landed(ops[..n], lands)), ops[n]) else ApplyAll(c, Landed(ops[..n], lands))
  {
    assert ops[..n + 1][..n] == ops[..n];
    var before := Landed(ops[..n], lands);
    if lands(n) {
      assert Landed(ops[..n + 1], lands) == before + [ops[n]];
      ApplyAllSnoc(c, before, ops[n]);
    } else {
      assert Landed(ops[..n + 1], lands) == before + [];
      assert before + [] == before;
    }
  }

  /** `fails(k)` is the error of the k-th write, `None` when it succeeded. */
  function Lands(fails: nat -> Option<string>): nat -> bool
  {
    (k: nat) => fails(k).None?
  }

  /** The first error among writes 0 .. m-1, in order. */
  function FirstFailure(fails: nat -> Option<string>, m: nat): (e: Option<string>)
    ensures e.None? <==> forall k: nat :: k < m ==> fails(k).None?
  {
    if m == 0 then None
    else
      var e := FirstFailure(fails, m - 1);
      if e.Some? then e else fails(m - 1)
  }

  /** The first failure is the error of a write before `m`, and every write
      before that one succeeded. */
  lemma {:induction false} FirstFailureFound(fails: nat -> Option<string>, m: nat)
    requires FirstFailure(fails, m).Some?
    ensures exists k: nat :: k < m && fails(k) == FirstFailure(fails, m) && forall j: nat :: j < k ==> fails(j).None?
  {
    var e := FirstFailure(fails, m - 1);
    if e.Some? {
      FirstFailureFound(fails, m - 1);
    } else {
      assert fails(m - 1) == FirstFailure(fails, m);
    }
  }

  /** How many writes of a sequence of `n` awaited one after another go
      through before the first that fails: the loop stops there. */
  function FirstUnlanded(lands: nat -> bool, n: nat): (m: nat)
    ensures m <= n && (forall k: nat :: k < m ==> lands(k)) && (m < n ==> !lands(m))
  {
    if n == 0 then 0
    else
      var m := FirstUnlanded(lands, n - 1);
      if m < n - 1 then m else if lands(n - 1) then n else n - 1
  }

  /** Writes issued one after another that stop at the first failure:
      awaited upserts inside one `try`, or an ordered `bulkWrite`. The
      writes before the failing one stay applied. */
  method ApplyUntilFail<K(==)>(c: Collection<K>, ops: seq<Upsert<K>>, lands: nat -> bool) returns (c': Collection<K>)
    ensures c' == ApplyAll(c, ops[..FirstUnlanded(lands, |ops|)])
  {
    var m := FirstUnlanded(lands, |ops|);
    c' := c;
    var k := 0;
    while k < |ops|
      invariant 0 <= k <= m
      invariant c' == ApplyAll(c, ops[..k])
    {
      if !lands(k) {
        return;
      }
      assert ops[..k + 1][..k] == ops[..k];
      c' := Apply(c', ops[k]);
      k := k + 1;
    }
    assert ops[..|ops|] == ops;
  }
}
