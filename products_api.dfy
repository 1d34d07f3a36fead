/** The product endpoints of the Express server (`server/index.js`) that work on
    the product list read from the spreadsheet: create with a generated id, merge
    update, delete, and the `/api/products/structure` summary of the columns.

    A product is a JavaScript object: an ordered list of (key, value) entries in
    insertion order. Reading and writing the spreadsheet is abstracted: the table
    is a field of `ProductTable`, and whether the write succeeded, the current
    time and the random SKU suffix are parameters. */
module ProductsApi {
  import opened Js

  type Record = seq<(string, Value)>

  const Created := 201
  const Ok := 200
  const BadRequest := 400
  const NotFound := 404
  const ServerError := 500

  // ---------------------------------------------------------------------------
  // Objects as ordered entry lists

  function Keys(r: Record): (ks: seq<string>)
    ensures |ks| == |r|
    ensures forall i :: 0 <= i < |r| ==> ks[i] == r[i].0
  {
    if r == [] then [] else [r[0].0] + Keys(r[1..])
  }

  /** Every key occurs once, as in a JavaScript object. */
  ghost predicate WellFormed(r: Record)
  {
    forall i, j :: 0 <= i < j < |r| ==> r[i].0 != r[j].0
  }

  /** `r[k]`: the value stored under `k`, `undefined` when there is none. */
  function Get(r: Record, k: string): (v: Value)
    ensures k !in Keys(r) ==> v == Undefined
  {
    if r == [] then Undefined else if r[0].0 == k then r[0].1 else Get(r[1..], k)
  }

  /** `r[k] = v`: an existing key keeps its position, a new key goes last. */
  function Set(r: Record, k: string, v: Value): (s: Record)
    ensures Get(s, k) == v
    ensures forall k' :: k' != k ==> Get(s, k') == Get(r, k')
    ensures forall k' :: k' in Keys(s) <==> k' in Keys(r) || k' == k
  {
    if r == [] then [(k, v)]
    else if r[0].0 == k then [(k, v)] + r[1..]
    else [r[0]] + Set(r[1..], k, v)
  }

  /** `{ ...a, ...b }`. */
  function Spread(a: Record, b: Record): (s: Record)
    ensures forall k :: k in Keys(s) <==> k in Keys(a) || k in Keys(b)
    decreases |b|
  {
    if b == [] then a else Spread(Set(a, b[0].0, b[0].1), b[1..])
  }

  /** A well-formed object without its first entry is well formed and lacks that key. */
  lemma TailWellFormed(r: Record)
    requires r != [] && WellFormed(r)
    ensures WellFormed(r[1..]) && r[0].0 !in Keys(r[1..])
  {
    var tail := r[1..];
    forall i, j | 0 <= i < j < |tail| ensures tail[i].0 != tail[j].0 {
      assert tail[i] == r[i + 1] && tail[j] == r[j + 1];
    }
    forall j | 0 <= j < |tail| ensures tail[j].0 != r[0].0 {
      assert tail[j] == r[j + 1];
    }
  }

  /** Putting an entry with a new key in front keeps an object well formed. */
  lemma ConsWellFormed(e: (string, Value), t: Record)
    requires WellFormed(t) && e.0 !in Keys(t)
    ensures WellFormed([e] + t)
  {
    var s := [e] + t;
    forall i, j | 0 <= i < j < |s| ensures s[i].0 != s[j].0 {
      assert s[j] == t[j - 1] && Keys(t)[j - 1] == s[j].0;
      if i > 0 {
        assert s[i] == t[i - 1];
      }
    }
  }

  lemma {:induction false} SetWellFormed(r: Record, k: string, v: Value)
    requires WellFormed(r)
    ensures WellFormed(Set(r, k, v))
  {
    if r != [] {
      TailWellFormed(r);
      if r[0].0 == k {
        ConsWellFormed((k, v), r[1..]);
      } else {
        SetWellFormed(r[1..], k, v);
        ConsWellFormed(r[0], Set(r[1..], k, v));
      }
    }
  }

  /** Later entries win: a key of `b` has `b`'s value, any other key keeps `a`'s. */
  lemma {:induction false} SpreadGet(a: Record, b: Record, k: string)
    requires WellFormed(b)
    ensures Get(Spread(a, b), k) == if k in Keys(b) then Get(b, k) else Get(a, k)
    ensures WellFormed(a) ==> WellFormed(Spread(a, b))
    decreases |b|
  {
    if b != [] {
      SpreadGet(Set(a, b[0].0, b[0].1), b[1..], k);
      if WellFormed(a) {
        SetWellFormed(a, b[0].0, b[0].1);
      }
      assert b[0].0 !in Keys(b[1..]);
    }
  }

  // ---------------------------------------------------------------------------
  // POST /api/products

  /** `parseInt(p.id || p.ID || '0')`. */
  function ParsedId(p: Record): Option<int>
  {
    ParseInt(Or(Get(p, "id"), Or(Get(p, "ID"), Str("0"))))
  }

  /** The parsed id of each product, in table order. */
  function ParsedIds(products: seq<Record>): (ids: seq<Option<int>>)
    ensures |ids| == |products|
    ensures forall i :: 0 <= i < |products| ==> ids[i] == ParsedId(products[i])
  {
    if products == [] then [] else [ParsedId(products[0])] + ParsedIds(products[1..])
  }

  /** The `maxId` the `forEach` loop ends with over these parsed ids: it starts
      at 0 and is replaced by each larger id. */
  function MaxOf(ids: seq<Option<int>>): nat
  {
    if ids == [] then 0
    else
      var m := MaxOf(ids[..|ids| - 1]);
      var id := ids[|ids| - 1];
      if id.Some? && id.value > m then id.value else m
  }

  /** One more id: `MaxOf` moves to it when it is larger. */
  lemma MaxOfStep(ids: seq<Option<int>>, i: nat)
    requires i < |ids|
    ensures MaxOf(ids[..i + 1])
      == if ids[i].Some? && ids[i].value > MaxOf(ids[..i]) then ids[i].value else MaxOf(ids[..i])
  {
    assert ids[..i + 1][..i] == ids[..i];
  }

  function MaxId(products: seq<Record>): nat
  {
    MaxOf(ParsedIds(products))
  }

  /** The maximum is at least every id that parsed. */
  lemma {:induction false} MaxOfBounds(ids: seq<Option<int>>, i: nat)
    requires i < |ids| && ids[i].Some?
    ensures ids[i].value <= MaxOf(ids)
  {
    var init := ids[..|ids| - 1];
    if i < |init| {
      assert init[i] == ids[i];
      MaxOfBounds(init, i);
    }
  }

  /** A non-zero maximum is one of the ids. */
  lemma {:induction false} MaxOfAttained(ids: seq<Option<int>>)
    ensures MaxOf(ids) == 0 || exists i :: 0 <= i < |ids| && ids[i] == Some(MaxOf(ids) as int)
  {
    if ids != [] {
      var init := ids[..|ids| - 1];
      MaxOfAttained(init);
      if MaxOf(ids) != 0 && MaxOf(ids) == MaxOf(init) {
        var i :| 0 <= i < |init| && init[i] == Some(MaxOf(init) as int);
        assert ids[i] == init[i];
      }
    }
  }

  /** The id the next product gets. */
  function NextId(products: seq<Record>): (id: nat)
    ensures id >= 1
  {
    MaxId(products) + 1
  }

  /** The generated id exceeds every id already in the table that parses as an
      integer, and is one more than such an id unless there is none above 0. */
  lemma NextIdIsFresh(products: seq<Record>)
    ensures forall i :: 0 <= i < |products| && ParsedId(products[i]).Some? ==>
      ParsedId(products[i]).value < NextId(products)
    ensures NextId(products) == 1 || exists i :: 0 <= i < |products| && ParsedId(products[i]) == Some(NextId(products) - 1)
  {
    var ids := ParsedIds(products);
    forall i | 0 <= i < |products| && ParsedId(products[i]).Some?
      ensures ParsedId(products[i]).value < NextId(products)
    {
      MaxOfBounds(ids, i);
    }
    MaxOfAttained(ids);
    if MaxOf(ids) != 0 {
      var i :| 0 <= i < |ids| && ids[i] == Some(MaxOf(ids) as int);
      assert ParsedId(products[i]) == Some(NextId(products) - 1);
    }
  }

  /** The fields the handler generates: both id spellings, a SKU and the two dates. */
  function Generated(ids: string, sku: string, now: string): (g: Record)
    ensures Get(g, "id") == Str(ids) && Get(g, "ID") == Str(ids)
    ensures Get(g, "date_created") == Str(now) && Get(g, "date_modified") == Str(now)
  {
    var g4: Record := [("date_modified", Str(now))];
    var g3 := [("date_created", Str(now))] + g4;
    var g2 := [("sku", Str(sku))] + g3;
    var g1 := [("ID", Str(ids))] + g2;
    var g := [("id", Str(ids))] + g1;
    assert g[1..] == g1 && g1[1..] == g2 && g2[1..] == g3 && g3[1..] == g4;
    assert Get(g2, "date_created") == Get(g3, "date_created") == Str(now);
    assert Get(g2, "date_modified") == Get(g3, "date_modified") == Get(g4, "date_modified") == Str(now);
    assert Get(g, "date_created") == Get(g1, "date_created") == Get(g2, "date_created");
    assert Get(g, "date_modified") == Get(g1, "date_modified") == Get(g2, "date_modified");
    g
  }

  /** The product the handler builds: generated fields first, the request body
      spread over them. The SKU suffix is `Math.floor(Math.random() * 1000)`. */
  function NewProduct(id: nat, now: string, skuSuffix: nat, body: Record): Record
    requires skuSuffix < 1000
  {
    var ids := NatToString(id);
    Spread(Generated(ids, "SKU-" + ids + "-" + NatToString(skuSuffix), now), body)
  }

  /** Fields sent by the client override the generated ones; the generated ones
      are kept where the body is silent. */
  lemma NewProductFields(id: nat, now: string, skuSuffix: nat, body: Record, k: string)
    requires skuSuffix < 1000 && WellFormed(body)
    ensures k in Keys(body) ==> Get(NewProduct(id, now, skuSuffix, body), k) == Get(body, k)
    ensures k !in Keys(body) && (k == "id" || k == "ID") ==> Get(NewProduct(id, now, skuSuffix, body), k) == Str(NatToString(id))
    ensures k !in Keys(body) && (k == "date_created" || k == "date_modified") ==> Get(NewProduct(id, now, skuSuffix, body), k) == Str(now)
  {
    var ids := NatToString(id);
    SpreadGet(Generated(ids, "SKU-" + ids + "-" + NatToString(skuSuffix), now), body, k);
  }

  /** A request body that passes the check `!body || !body.name`. */
  predicate AcceptableBody(body: Option<Record>)
  {
    body.Some? && Truthy(Get(body.value, "name"))
  }

  // ---------------------------------------------------------------------------
  // PUT and DELETE /api/products/:id

  /** `p.id === id || p.ID === id`. */
  predicate Matches(p: Record, id: string)
  {
    Get(p, "id") == Str(id) || Get(p, "ID") == Str(id)
  }

  /** `products.findIndex(p => p.id === id || p.ID === id)`. */
  function FindMatch(products: seq<Record>, id: string): (r: int)
    ensures -1 <= r < |products|
    ensures r >= 0 ==> Matches(products[r], id)
    ensures forall j :: 0 <= j < |products| && (r == -1 || j < r) ==> !Matches(products[j], id)
  {
    if products == [] then -1
    else if Matches(products[0], id) then 0
    else
      var tail := products[1..];
      var r := FindMatch(tail, id);
      assert forall j :: 1 <= j < |products| ==> products[j] == tail[j - 1];
      if r == -1 then -1 else r + 1
  }

  /** `{ ...old, ...body, date_modified: now }`. */
  function Merge(prev: Record, body: Record, now: string): Record
  {
    Set(Spread(prev, body), "date_modified", Str(now))
  }

  /** The merged product has the body's value for each field it sends, the new
      modification date, and the old value for everything else. */
  lemma MergeFields(prev: Record, body: Record, now: string, k: string)
    requires WellFormed(body)
    ensures Get(Merge(prev, body, now), k) ==
      if k == "date_modified" then Str(now) else if k in Keys(body) then Get(body, k) else Get(prev, k)
  {
    SpreadGet(prev, body, k);
  }

  /** `products.filter(p => p.id !== id && p.ID !== id)`. */
  function Remove(products: seq<Record>, id: string): (r: seq<Record>)
    ensures |r| <= |products|
    ensures forall p :: p in r <==> p in products && !Matches(p, id)
  {
    if products == [] then []
    else if Matches(products[0], id) then Remove(products[1..], id)
    else [products[0]] + Remove(products[1..], id)
  }

  lemma {:induction false} RemoveNoMatch(products: seq<Record>, id: string)
    requires FindMatch(products, id) == -1
    ensures Remove(products, id) == products
  {
    if products != [] {
      RemoveNoMatch(products[1..], id);
    }
  }

  lemma {:induction false} RemoveShrinks(products: seq<Record>, id: string)
    requires FindMatch(products, id) != -1
    ensures |Remove(products, id)| < |products|
  {
    if !Matches(products[0], id) {
      RemoveShrinks(products[1..], id);
    }
  }

  /** The delete handler answers 404 exactly when no product matches: the filter
      keeps the length iff it removes nothing. */
  lemma RemoveKeepsLengthIffNoMatch(products: seq<Record>, id: string)
    ensures |Remove(products, id)| == |products| <==> FindMatch(products, id) == -1
    ensures FindMatch(products, id) == -1 ==> Remove(products, id) == products
  {
    if FindMatch(products, id) == -1 {
      RemoveNoMatch(products, id);
    } else {
      RemoveShrinks(products, id);
    }
  }

  /** Removal keeps the surviving products in order. */
  lemma {:induction false} RemoveConcat(a: seq<Record>, b: seq<Record>, id: string)
    ensures Remove(a + b, id) == Remove(a, id) + Remove(b, id)
  {
    if a == [] {
      assert a + b == b;
    } else {
      assert (a + b)[0] == a[0] && (a + b)[1..] == a[1..] + b;
      RemoveConcat(a[1..], b, id);
    }
  }

  // ---------------------------------------------------------------------------
  // GET /api/products/structure

  /** Adds the keys of `ks` not yet present, in order (`Set.add`). */
  function AddKeys(acc: seq<string>, ks: seq<string>): (r: seq<string>)
    ensures |acc| <= |r| && r[..|acc|] == acc
    ensures forall x :: x in r <==> x in acc || x in ks
    decreases |ks|
  {
    if ks == [] then acc
    else
      var a := AddKeys(acc, ks[..|ks| - 1]);
      assert forall x :: x in ks[..|ks| - 1] ==> x in ks;
      assert forall x :: x in ks ==> x in ks[..|ks| - 1] || x == ks[|ks| - 1];
      if ks[|ks| - 1] in a then a else a + [ks[|ks| - 1]]
  }

  /** The insertion-ordered union of all products' keys. */
  function FieldsOf(products: seq<Record>): (fields: seq<string>)
  {
    if products == [] then [] else AddKeys(FieldsOf(products[..|products| - 1]), Keys(products[|products| - 1]))
  }

  ghost predicate Distinct(s: seq<string>)
  {
    forall i, j :: 0 <= i < j < |s| ==> s[i] != s[j]
  }

  lemma {:induction false} AddKeysDistinct(acc: seq<string>, ks: seq<string>)
    requires Distinct(acc)
    ensures Distinct(AddKeys(acc, ks))
    decreases |ks|
  {
    if ks != [] {
      AddKeysDistinct(acc, ks[..|ks| - 1]);
    }
  }

  /** The inner `forEach`: `allFields.add(key)` for each key in order. */
  method AddEachKey(fields: seq<string>, keys: seq<string>) returns (acc: seq<string>)
    ensures acc == AddKeys(fields, keys)
  {
    acc := fields;
    var j := 0;
    while j < |keys|
      invariant 0 <= j <= |keys|
      invariant acc == AddKeys(fields, keys[..j])
    {
      assert keys[..j + 1][..j] == keys[..j];
      if keys[j] !in acc {
        acc := acc + [keys[j]];
      }
      j := j + 1;
    }
    assert keys[..j] == keys;
  }

  /** Each key of any product appears in `fields` exactly once, and nothing else does. */
  lemma {:induction false} FieldsOfSpec(products: seq<Record>)
    ensures Distinct(FieldsOf(products))
    ensures forall k :: k in FieldsOf(products) <==> exists i :: 0 <= i < |products| && k in Keys(products[i])
  {
    if products != [] {
      var init := products[..|products| - 1];
      var last := products[|products| - 1];
      FieldsOfSpec(init);
      AddKeysDistinct(FieldsOf(init), Keys(last));
      forall k | k in FieldsOf(products) ensures exists i :: 0 <= i < |products| && k in Keys(products[i]) {
        if k in FieldsOf(init) {
          var i :| 0 <= i < |init| && k in Keys(init[i]);
          assert products[i] == init[i];
        } else {
          assert k in Keys(products[|products| - 1]);
        }
      }
      forall k | exists i :: 0 <= i < |products| && k in Keys(products[i]) ensures k in FieldsOf(products) {
        var i :| 0 <= i < |products| && k in Keys(products[i]);
        if i < |init| {
          assert init[i] == products[i];
        }
      }
    }
  }

  /** Product `i` is the first whose `field` is defined. */
  ghost predicate FirstAt(products: seq<Record>, field: string, i: int)
  {
    0 <= i < |products| && Get(products[i], field) != Undefined
    && forall j :: 0 <= j < i ==> Get(products[j], field) == Undefined
  }

  /** `products.find(p => p[field] !== undefined)[field]`. */
  function FirstDefined(products: seq<Record>, field: string): (r: Option<Value>)
    ensures r.None? ==> forall i :: 0 <= i < |products| ==> Get(products[i], field) == Undefined
    ensures r.Some? ==> r.value != Undefined
    ensures r.Some? ==> exists i :: FirstAt(products, field, i) && Get(products[i], field) == r.value
  {
    if products == [] then None
    else if Get(products[0], field) != Undefined then Some(Get(products[0], field))
    else
      var r := FirstDefined(products[1..], field);
      assert r.Some? ==> exists i :: FirstAt(products, field, i) && Get(products[i], field) == r.value by {
        if r.Some? {
          var i :| FirstAt(products[1..], field, i) && Get(products[1..][i], field) == r.value;
          assert Get(products[i + 1], field) == r.value;
          forall j | 0 <= j < i + 1 ensures Get(products[j], field) == Undefined {
            if j > 0 { assert products[j] == products[1..][j - 1]; }
          }
          assert FirstAt(products, field, i + 1);
        }
      }
      r
  }

  /** The position of the most complete product: the first one with the most keys
      (the `reduce` replaces the best only on a strictly larger key count). */
  function BestIndex(products: seq<Record>, n: nat): (b: nat)
    requires 0 < n <= |products|
    ensures b < n
    ensures forall j :: 0 <= j < n ==> |products[j]| <= |products[b]|
    ensures forall j :: 0 <= j < b ==> |products[j]| < |products[b]|
  {
    if n == 1 then 0
    else
      var b := BestIndex(products, n - 1);
      if |products[n - 1]| > |products[b]| then n - 1 else b
  }

  /** The body of the structure response. */
  datatype Structure = Structure(fields: seq<string>, sampleProduct: Record, fieldTypes: map<string, string>)

  // ---------------------------------------------------------------------------
  // The handlers on the table

  /** The product table the handlers read and rewrite. */
  class ProductTable {
    var rows: seq<Record>

    constructor (rows: seq<Record>)
      ensures this.rows == rows
    {
      this.rows := rows;
    }

    /** The `forEach` loop that finds the largest numeric id. */
    method ComputeNextId() returns (productId: nat)
      ensures productId == NextId(rows)
    {
      var products := rows;
      ghost var ids := ParsedIds(products);
      var maxId: nat := 0;
      var i := 0;
      while i < |products|
        invariant 0 <= i <= |products|
        invariant maxId == MaxOf(ids[..i])
      {
        var id := ParsedId(products[i]);
        assert id == ids[i];
        MaxOfStep(ids, i);
        if id.Some? && id.value > maxId {
          maxId := id.value;
        }
        i := i + 1;
      }
      assert ids[..i] == ids;
      productId := maxId + 1;
    }

    /** `POST /api/products`. */
    method Post(body: Option<Record>, now: string, skuSuffix: nat, writeOk: bool)
      returns (status: int, product: Option<Record>)
      requires skuSuffix < 1000
      modifies this
      ensures !AcceptableBody(body) ==> status == BadRequest && product == None && rows == old(rows)
      ensures AcceptableBody(body) ==>
        && product == Some(NewProduct(NextId(old(rows)), now, skuSuffix, body.value))
        && (writeOk ==> status == Created && rows == old(rows) + [product.value])
        && (!writeOk ==> status == ServerError && rows == old(rows))
    {
      if body.None? || !Truthy(Get(body.value, "name")) {
        return BadRequest, None;
      }
      var productId := ComputeNextId();
      var p := NewProduct(productId, now, skuSuffix, body.value);
      var currentProducts := rows + [p];
      if writeOk {
        rows := currentProducts;
        status := Created;
      } else {
        status := ServerError;
      }
      product := Some(p);
    }

    /** `PUT /api/products/:id`. */
    method Put(id: string, body: Record, now: string, writeOk: bool) returns (status: int, product: Option<Record>)
      modifies this
      ensures FindMatch(old(rows), id) == -1 ==> status == NotFound && product == None && rows == old(rows)
      ensures var i := FindMatch(old(rows), id);
        i >= 0 ==>
          && product == Some(Merge(old(rows)[i], body, now))
          && (writeOk ==> status == Ok && rows == old(rows)[i := product.value])
          && (!writeOk ==> status == ServerError && rows == old(rows))
    {
      var index := FindMatch(rows, id);
      if index == -1 {
        return NotFound, None;
      }
      var updated := Merge(rows[index], body, now);
      if writeOk {
        rows := rows[index := updated];
        status := Ok;
      } else {
        status := ServerError;
      }
      product := Some(updated);
    }

    /** `DELETE /api/products/:id`. */
    method Delete(id: string, writeOk: bool) returns (status: int)
      modifies this
      ensures FindMatch(old(rows), id) == -1 ==> status == NotFound && rows == old(rows)
      ensures FindMatch(old(rows), id) >= 0 ==>
        && (writeOk ==> status == Ok && rows == Remove(old(rows), id))
        && (!writeOk ==> status == ServerError && rows == old(rows))
    {
      var filtered := Remove(rows, id);
      RemoveKeepsLengthIffNoMatch(rows, id);
      if |filtered| == |rows| {
        return NotFound;
      }
      if writeOk {
        rows := filtered;
        status := Ok;
      } else {
        status := ServerError;
      }
    }

    /** The two `forEach` loops that add every key of every product to the `Set`. */
    method CollectFields() returns (allFields: seq<string>)
      ensures allFields == FieldsOf(rows)
    {
      allFields := [];
      var i := 0;
      while i < |rows|
        invariant 0 <= i <= |rows|
        invariant allFields == FieldsOf(rows[..i])
      {
        assert rows[..i + 1][..i] == rows[..i];
        allFields := AddEachKey(allFields, Keys(rows[i]));
        i := i + 1;
      }
      assert rows[..i] == rows;
    }

    /** The `forEach` over the fields that records the type of the first defined value. */
    method CollectTypes(fields: seq<string>) returns (fieldTypes: map<string, string>)
      ensures forall f :: f in fieldTypes <==> f in fields && FirstDefined(rows, f).Some?
      ensures forall f :: f in fieldTypes ==> fieldTypes[f] == TypeOf(FirstDefined(rows, f).value)
    {
      fieldTypes := map[];
      var k := 0;
      while k < |fields|
        invariant 0 <= k <= |fields|
        invariant forall f :: f in fieldTypes <==> f in fields[..k] && FirstDefined(rows, f).Some?
        invariant forall f :: f in fieldTypes ==> fieldTypes[f] == TypeOf(FirstDefined(rows, f).value)
      {
        var found := FirstDefined(rows, fields[k]);
        if found.Some? {
          fieldTypes := fieldTypes[fields[k] := TypeOf(found.value)];
        }
        assert fields[..k + 1] == fields[..k] + [fields[k]];
        k := k + 1;
      }
      assert fields[..k] == fields;
    }

    /** `GET /api/products/structure`. */
    method GetStructure() returns (s: Structure)
      ensures rows == [] ==> s == Structure([], [], map[])
      ensures rows != [] ==>
        && s.fields == FieldsOf(rows)
        && s.sampleProduct == rows[BestIndex(rows, |rows|)]
        && (forall f :: f in s.fieldTypes <==> f in s.fields && FirstDefined(rows, f).Some?)
        && (forall f :: f in s.fieldTypes ==> s.fieldTypes[f] == TypeOf(FirstDefined(rows, f).value))
    {
      if rows == [] {
        return Structure([], [], map[]);
      }
      var allFields := CollectFields();
      var fieldTypes := CollectTypes(allFields);
      var best := BestIndex(rows, |rows|);
      s := Structure(allFields, rows[best], fieldTypes);
    }
  }
}
