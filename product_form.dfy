/** The admin product form of `client/src/components/admin/NewProductForm.jsx`:
    which table fields the form shows, how an edit of one field is mirrored into
    its twin, the checks run before submitting, and how the submitted record is
    built (size normalisation, key filtering, boolean and number conversion,
    removal of empty values). Form data is a map from field name to value; the
    image upload is a network call and `parseFloat` a parameter, since fractional
    numbers are not modelled. */
module ProductForm {
  import opened Js

  /** Fields filled in automatically and never shown in the form. */
  const HiddenFields: seq<string> := [
    "id", "ID", "sku", "date_created", "date_modified", "created_at", "modified_at",
    "date_created_gmt", "date_modified_gmt", "featured", "bestseller", "trending",
    "total_sales", "views", "ratings_count", "average_rating", "image_url", "in_stock",
    "product_attributes", "related_ids"]

  /** The fields converted with `parseFloat` before submitting. */
  const NumericFields: seq<string> := [
    "price", "regular_price", "sale_price", "cost_price", "stock", "stock_quantity", "alcohol"]

  const NameRequired := "Product name is required"
  const PriceRequired := "Product price is required"
  const CategoryRequired := "Product category is required"
  const StockRequired := "Stock quantity is required"
  const SizeRequired := "Product size is required"
  const ImageRequired := "Please select a product image"

  type Form = map<string, Value>

  /** `formData[k]`: a missing key reads as `undefined`. */
  function Get(form: Form, k: string): Value
  {
    if k in form then form[k] else Undefined
  }

  // ---------------------------------------------------------------------------
  // Form fields

  /** `structure.fields.filter(field => !HIDDEN_FIELDS.includes(field))`. */
  function FormFields(fields: seq<string>): (r: seq<string>)
    ensures forall f :: f in r <==> f in fields && f !in HiddenFields
    ensures |r| <= |fields|
  {
    if fields == [] then []
    else
      assert fields == [fields[0]] + fields[1..];
      var rest := FormFields(fields[1..]);
      if fields[0] in HiddenFields then rest else [fields[0]] + rest
  }

  /** Filtering the form fields again changes nothing. */
  lemma {:induction false} FormFieldsIdempotent(fields: seq<string>)
    ensures FormFields(FormFields(fields)) == FormFields(fields)
  {
    if fields != [] {
      FormFieldsIdempotent(fields[1..]);
      var rest := FormFields(fields[1..]);
      if fields[0] !in HiddenFields {
        assert ([fields[0]] + rest)[1..] == rest;
      }
    }
  }

  // ---------------------------------------------------------------------------
  // Editing a field

  datatype InputType = Checkbox | Number | Text

  /** The field that mirrors `name`, if any. */
  function Twin(name: string): (r: Option<string>)
    ensures r.Some? ==> r.value != name
  {
    if name == "name" then Some("post_title")
    else if name == "post_title" then Some("name")
    else if name == "category" then Some("tax:product_cat")
    else if name == "tax:product_cat" then Some("category")
    else if name == "brand" then Some("tax:product_brand")
    else if name == "tax:product_brand" then Some("brand")
    else if name == "stock" then Some("stock_quantity")
    else if name == "stock_quantity" then Some("stock")
    else if name == "price" then Some("regular_price")
    else if name == "regular_price" then Some("price")
    else if name == "short_description" then Some("post_excerpt")
    else if name == "post_excerpt" then Some("short_description")
    else None
  }

  /** Twins come in pairs: the twin of a field's twin is the field. */
  lemma TwinSymmetric(name: string)
    ensures Twin(name).Some? ==> Twin(Twin(name).value) == Some(name)
  {
    if name == "name" || name == "post_title" {
    } else if name == "category" || name == "tax:product_cat" {
    } else if name == "brand" || name == "tax:product_brand" {
    } else if name == "stock" || name == "stock_quantity" {
    } else if name == "price" || name == "regular_price" {
    } else if name == "short_description" || name == "post_excerpt" {
    }
  }

  /** The value an input event stores under its own name: the checked state of a
      checkbox, `parseFloat` of a non-empty number input (`''` for an empty one),
      and the raw text otherwise. */
  function InputValue(t: InputType, value: string, checked: bool, parseFloat: string -> Value): Value
  {
    match t
    case Checkbox => Bool(checked)
    case Number => if value != "" then parseFloat(value) else Str("")
    case Text => Str(value)
  }

  /** `handleInputChange`: the first state update stores the converted value,
      the second copies the raw text into the twin field. */
  function HandleInputChange(form: Form, name: string, t: InputType, value: string, checked: bool,
                             parseFloat: string -> Value): (r: Form)
    ensures r.Keys == form.Keys + {name} + (if Twin(name).Some? then {Twin(name).value} else {})
    ensures r[name] == InputValue(t, value, checked, parseFloat)
    ensures Twin(name).Some? ==> r[Twin(name).value] == Str(value)
    ensures forall k :: k in form && k != name && Twin(name) != Some(k) ==> r[k] == form[k]
  {
    var updated := form[name := InputValue(t, value, checked, parseFloat)];
    match Twin(name)
    case None => updated
    case Some(twin) => updated[twin := Str(value)]
  }

  /** After a text edit of either field of a pair, both fields hold the typed text. */
  lemma TextEditKeepsTwinsEqual(form: Form, name: string, value: string, checked: bool,
                                parseFloat: string -> Value)
    requires Twin(name).Some?
    ensures var r := HandleInputChange(form, name, Text, value, checked, parseFloat);
      r[name] == r[Twin(name).value] == Str(value)
  {
  }

  // ---------------------------------------------------------------------------
  // Checks before submitting

  predicate NameGiven(form: Form) { Truthy(Get(form, "name")) && Truthy(Get(form, "post_title")) }
  predicate PriceGiven(form: Form) { Truthy(Get(form, "price")) && Truthy(Get(form, "regular_price")) }
  predicate CategoryGiven(form: Form) { Truthy(Get(form, "category")) || Truthy(Get(form, "tax:product_cat")) }
  predicate StockGiven(form: Form) { Truthy(Get(form, "stock")) || Truthy(Get(form, "stock_quantity")) }
  predicate SizeGiven(form: Form) { Truthy(Get(form, "size")) }

  /** `validateForm`: `None` when it returns true, otherwise the error it sets. */
  function ValidateForm(form: Form): (r: Option<string>)
  {
    if !NameGiven(form) then Some(NameRequired)
    else if !PriceGiven(form) then Some(PriceRequired)
    else if !CategoryGiven(form) then Some(CategoryRequired)
    else if !StockGiven(form) then Some(StockRequired)
    else if !SizeGiven(form) then Some(SizeRequired)
    else None
  }

  /** The form passes exactly when all five checks pass, and a failing form
      reports the first failing check in the order name, price, category, stock,
      size. */
  lemma ValidateFormFirstFailure(form: Form)
    ensures ValidateForm(form) == None <==>
      NameGiven(form) && PriceGiven(form) && CategoryGiven(form) && StockGiven(form) && SizeGiven(form)
    ensures ValidateForm(form) == Some(NameRequired) <==> !NameGiven(form)
    ensures ValidateForm(form) == Some(PriceRequired) <==> NameGiven(form) && !PriceGiven(form)
    ensures ValidateForm(form) == Some(CategoryRequired) <==>
      NameGiven(form) && PriceGiven(form) && !CategoryGiven(form)
    ensures ValidateForm(form) == Some(StockRequired) <==>
      NameGiven(form) && PriceGiven(form) && CategoryGiven(form) && !StockGiven(form)
    ensures ValidateForm(form) == Some(SizeRequired) <==>
      NameGiven(form) && PriceGiven(form) && CategoryGiven(form) && StockGiven(form) && !SizeGiven(form)
  {
  }

  /** The error `handleSubmit` stops with before any upload: the form check, then
      the image a new product must have. */
  function SubmitError(form: Form, isEditing: bool): (r: Option<string>)
    ensures r == None ==> ValidateForm(form) == None
  {
    var v := ValidateForm(form);
    if v.Some? then v
    else if !isEditing && !Truthy(Get(form, "image")) then Some(ImageRequired)
    else None
  }

  /** A new product without an image is never submitted; an edited one may keep
      its stored image. */
  lemma NewProductNeedsImage(form: Form)
    ensures !Truthy(Get(form, "image")) ==> SubmitError(form, false).Some?
    ensures ValidateForm(form) == None && !Truthy(Get(form, "image")) ==>
      SubmitError(form, false) == Some(ImageRequired) && SubmitError(form, true) == None
  {
  }

  // ---------------------------------------------------------------------------
  // Size and volume

  /** The characters `/[^0-9.]/g` does not remove. */
  predicate SizeChar(c: char) { IsDigit(c) || c == '.' }

  /** `s.replace(/[^0-9.]/g, '')`. */
  function SizeDigits(s: string): (r: string)
    ensures |r| <= |s|
    ensures forall i :: 0 <= i < |r| ==> SizeChar(r[i])
  {
    if s == [] then []
    else if SizeChar(s[0]) then [s[0]] + SizeDigits(s[1..])
    else SizeDigits(s[1..])
  }

  lemma {:induction false} SizeDigitsAppend(a: string, b: string)
    ensures SizeDigits(a + b) == SizeDigits(a) + SizeDigits(b)
  {
    if a == [] {
      assert a + b == b;
    } else {
      assert (a + b)[0] == a[0] && (a + b)[1..] == a[1..] + b;
      SizeDigitsAppend(a[1..], b);
    }
  }

  /** Text made only of digits and dots is left as it is. */
  lemma {:induction false} SizeDigitsOfDigits(s: string)
    requires forall i :: 0 <= i < |s| ==> SizeChar(s[i])
    ensures SizeDigits(s) == s
  {
    if s != [] {
      SizeDigitsOfDigits(s[1..]);
    }
  }

  /** The unit suffixes hold no digit and no dot. */
  lemma SuffixesDropped()
    ensures SizeDigits("ml") == [] && SizeDigits("ML") == []
  {
    assert SizeDigits("l") == [] && SizeDigits("L") == [];
  }

  /** The first formatting step: the digits and dots of the size followed by `ml`. */
  function SizeWithUnit(size: Value): string
  {
    SizeDigits(ToString(size)) + "ml"
  }

  /** Delete `imagePreview`, then (for a truthy size) store the size with `ml` and
      the volume attribute, computed from the stored size, with `ML`. */
  function Normalise(data: Form): (r: Form)
  {
    var d := data - {"imagePreview"};
    if Truthy(Get(d, "size")) then
      var size := SizeWithUnit(d["size"]);
      d["size" := Str(size)]["attribute:pa_product-volume" := Str(SizeDigits(size) + "ML")]
    else d
  }

  /** A truthy size becomes its digits and dots followed by `ml`, the volume gets
      the same digits followed by `ML`, and nothing else but `imagePreview`
      changes; normalising twice is the same as normalising once. */
  lemma NormaliseSpec(data: Form)
    ensures "imagePreview" !in Normalise(data)
    ensures Truthy(Get(data, "size")) ==>
      var digits := SizeDigits(ToString(data["size"]));
      && Normalise(data)["size"] == Str(digits + "ml")
      && Normalise(data)["attribute:pa_product-volume"] == Str(digits + "ML")
    ensures !Truthy(Get(data, "size")) ==> Normalise(data) == data - {"imagePreview"}
    ensures forall k :: k in data && k != "imagePreview" && k != "size" && k != "attribute:pa_product-volume" ==>
      k in Normalise(data) && Normalise(data)[k] == data[k]
    ensures Normalise(Normalise(data)) == Normalise(data)
  {
    SuffixesDropped();
    if Truthy(Get(data, "size")) {
      var digits := SizeDigits(ToString(data["size"]));
      SizeDigitsAppend(digits, "ml");
      SizeDigitsOfDigits(digits);
      assert SizeDigits(digits + "ml") == digits;
      var once := Normalise(data);
      assert ToString(once["size"]) == digits + "ml";
    }
  }

  // ---------------------------------------------------------------------------
  // Building the submitted record

  /** The keys kept in the submitted record. */
  predicate KeptKey(k: string, excelFields: seq<string>)
  {
    k in excelFields || k == "image" || k == "image_url"
  }

  /** Booleans are written as the strings `'true'` / `'false'`. */
  function ExcelValue(v: Value): (r: Value)
    ensures !r.Bool?
  {
    if v.Bool? then Str(if v.b then "true" else "false") else v
  }

  /** The key filter of `handleSubmit`. */
  function FilterSpec(data: Form, excelFields: seq<string>): map<string, Value>
  {
    map k | k in data && KeptKey(k, excelFields) :: ExcelValue(data[k])
  }

  /** The number conversion of `fields`, one field after the other: a field that
      is present and truthy goes through `parseFloat`. */
  function ConvertFields(data: Form, fields: seq<string>, parseFloat: string -> Value): (r: Form)
    ensures r.Keys == data.Keys
  {
    if fields == [] then data
    else
      var d := ConvertFields(data, fields[..|fields| - 1], parseFloat);
      var f := fields[|fields| - 1];
      if f in d && Truthy(d[f]) then d[f := parseFloat(ToString(d[f]))] else d
  }

  /** The number conversion of `handleSubmit`. */
  function ConvertSpec(data: Form, parseFloat: string -> Value): Form
  {
    ConvertFields(data, NumericFields, parseFloat)
  }

  predicate DistinctFields(fields: seq<string>)
  {
    forall i, j :: 0 <= i < j < |fields| ==> fields[i] != fields[j]
  }

  /** With distinct field names, each listed truthy field is parsed once and
      every other value is kept. */
  lemma {:induction false} ConvertFieldsEffect(data: Form, fields: seq<string>, parseFloat: string -> Value)
    requires DistinctFields(fields)
    ensures forall k :: k in data ==>
      ConvertFields(data, fields, parseFloat)[k] ==
        if k in fields && Truthy(data[k]) then parseFloat(ToString(data[k])) else data[k]
  {
    if fields != [] {
      var init := fields[..|fields| - 1];
      var f := fields[|fields| - 1];
      assert DistinctFields(init);
      ConvertFieldsEffect(data, init, parseFloat);
      assert f !in init;
      assert forall k :: k in fields <==> k in init || k == f;
    }
  }

  /** The numeric fields are parsed, all other values are kept. */
  lemma ConvertSpecEffect(data: Form, parseFloat: string -> Value)
    ensures ConvertSpec(data, parseFloat).Keys == data.Keys
    ensures forall k :: k in data ==>
      ConvertSpec(data, parseFloat)[k] ==
        if k in NumericFields && Truthy(data[k]) then parseFloat(ToString(data[k])) else data[k]
  {
    ConvertFieldsEffect(data, NumericFields, parseFloat);
  }

  predicate Empty(v: Value) { v == Undefined || v == Str("") }

  /** The removal of `undefined` and `''` values. */
  function StripSpec(data: Form): Form
  {
    map k | k in data && !Empty(data[k]) :: data[k]
  }

  /** The whole preparation of the record `handleSubmit` hands to the product
      loader, once the image URL is in place. */
  function SubmissionSpec(data: Form, excelFields: seq<string>, parseFloat: string -> Value): Form
  {
    StripSpec(ConvertSpec(FilterSpec(Normalise(data), excelFields), parseFloat))
  }

  /** The `Object.keys(productData).forEach` that copies the kept keys. The key
      order does not matter for the result, so the keys are taken in any order. */
  method FilterForExcel(data: Form, excelFields: seq<string>) returns (out: Form)
    ensures out == FilterSpec(data, excelFields)
  {
    out := map[];
    var pending := data.Keys;
    while pending != {}
      invariant pending <= data.Keys
      invariant out == map k | k in data && k !in pending && KeptKey(k, excelFields) :: ExcelValue(data[k])
      decreases pending
    {
      var key :| key in pending;
      if KeptKey(key, excelFields) {
        out := out[key := ExcelValue(data[key])];
      }
      pending := pending - {key};
    }
  }

  /** The `forEach` over the numeric field names. */
  method ConvertNumbers(data: Form, parseFloat: string -> Value) returns (out: Form)
    ensures out == ConvertSpec(data, parseFloat)
  {
    out := data;
    var i := 0;
    while i < |NumericFields|
      invariant 0 <= i <= |NumericFields|
      invariant out == ConvertFields(data, NumericFields[..i], parseFloat)
    {
      var field := NumericFields[i];
      assert NumericFields[..i + 1][..i] == NumericFields[..i];
      if field in out && Truthy(out[field]) {
        out := out[field := parseFloat(ToString(out[field]))];
      }
      i := i + 1;
    }
    assert NumericFields[..i] == NumericFields;
  }

  /** The `forEach` that deletes empty values in place. */
  method StripEmpty(data: Form) returns (out: Form)
    ensures out == StripSpec(data)
  {
    out := data;
    var pending := data.Keys;
    while pending != {}
      invariant pending <= data.Keys
      invariant out == map k | k in data && (k in pending || !Empty(data[k])) :: data[k]
      decreases pending
    {
      var key :| key in pending;
      if Empty(out[key]) {
        out := out - {key};
      }
      pending := pending - {key};
    }
  }

  /** The record preparation of `handleSubmit`, step by step. */
  method PrepareSubmission(data: Form, excelFields: seq<string>, parseFloat: string -> Value) returns (out: Form)
    ensures out == SubmissionSpec(data, excelFields, parseFloat)
  {
    var filtered := FilterForExcel(Normalise(data), excelFields);
    filtered := ConvertNumbers(filtered, parseFloat);
    out := StripEmpty(filtered);
  }

  /** The submitted record holds only kept keys, never a boolean (unless
      `parseFloat` produced one), never `undefined` or `''`, never the preview;
      a truthy size that is a table field is submitted with its `ml` unit. */
  lemma SubmissionShape(data: Form, excelFields: seq<string>, parseFloat: string -> Value)
    ensures var out := SubmissionSpec(data, excelFields, parseFloat);
      && (forall k :: k in out ==> KeptKey(k, excelFields) && !Empty(out[k]))
      && (forall k :: k in out && k !in NumericFields ==> !out[k].Bool?)
      && "imagePreview" !in out
    ensures Truthy(Get(data, "size")) && "size" in excelFields ==>
      var out := SubmissionSpec(data, excelFields, parseFloat);
      "size" in out && out["size"] == Str(SizeDigits(ToString(data["size"])) + "ml")
  {
    SubmissionKeys(data, excelFields, parseFloat);
    if Truthy(Get(data, "size")) && "size" in excelFields {
      SubmissionSize(data, excelFields, parseFloat);
    }
  }

  lemma SubmissionKeys(data: Form, excelFields: seq<string>, parseFloat: string -> Value)
    ensures var out := SubmissionSpec(data, excelFields, parseFloat);
      && (forall k :: k in out ==> KeptKey(k, excelFields) && !Empty(out[k]))
      && (forall k :: k in out && k !in NumericFields ==> !out[k].Bool?)
      && "imagePreview" !in out
  {
    NormaliseSpec(data);
    var n := Normalise(data);
    var f := FilterSpec(n, excelFields);
    var c := ConvertSpec(f, parseFloat);
    ConvertSpecEffect(f, parseFloat);
    forall k | k in c && k !in NumericFields ensures !c[k].Bool? {
      assert c[k] == f[k];
    }
  }

  lemma SubmissionSize(data: Form, excelFields: seq<string>, parseFloat: string -> Value)
    requires Truthy(Get(data, "size")) && "size" in excelFields
    ensures var out := SubmissionSpec(data, excelFields, parseFloat);
      "size" in out && out["size"] == Str(SizeDigits(ToString(data["size"])) + "ml")
  {
    NormaliseSpec(data);
    var n := Normalise(data);
    var f := FilterSpec(n, excelFields);
    var c := ConvertSpec(f, parseFloat);
    ConvertSpecEffect(f, parseFloat);
    assert f["size"] == n["size"];
    assert "size" !in NumericFields;
    assert c["size"] == f["size"];
    assert !Empty(c["size"]);
  }

  // ---------------------------------------------------------------------------
  // Checkbox labels

  /** `field.replace(/^is/, '')`. */
  function DropIs(s: string): string
  {
    if |s| >= 2 && s[..2] == "is" then s[2..] else s
  }

  /** `s.replace(/([A-Z])/g, ' $1')`. */
  function SpaceCapitals(s: string): string
  {
    if s == [] then []
    else (if IsUpper(s[0]) then [' ', s[0]] else [s[0]]) + SpaceCapitals(s[1..])
  }

  /** A capital in the spaced text is never first and always follows a space. */
  lemma {:induction false} SpaceCapitalsFollowSpace(s: string)
    ensures forall i :: 0 <= i < |SpaceCapitals(s)| && IsUpper(SpaceCapitals(s)[i]) ==>
      i > 0 && SpaceCapitals(s)[i - 1] == ' '
  {
    if s != [] {
      SpaceCapitalsFollowSpace(s[1..]);
      var rest := SpaceCapitals(s[1..]);
      var head := if IsUpper(s[0]) then [' ', s[0]] else [s[0]];
      var r := head + rest;
      assert SpaceCapitals(s) == r;
      forall i | 0 <= i < |r| && IsUpper(r[i]) ensures i > 0 && r[i - 1] == ' ' {
        if i >= |head| {
          assert r[i] == rest[i - |head|];
          if i > |head| {
            assert r[i - 1] == rest[i - |head| - 1];
          }
        } else if IsUpper(s[0]) {
          assert r[0] == ' ';
        }
      }
    }
  }

  /** The label of a boolean field's checkbox. */
  function DisplayName(field: string): string
  {
    Trim(SpaceCapitals(DropIs(field)))
  }

  /** A label has no leading or trailing white space, and every capital of it
      other than its first character follows a space. */
  lemma DisplayNameSpacesCapitals(field: string)
    ensures var r := DisplayName(field);
      r == [] || (!IsSpace(r[0]) && !IsSpace(r[|r| - 1]))
    ensures var r := DisplayName(field);
      forall i :: 0 < i < |r| && IsUpper(r[i]) ==> r[i - 1] == ' '
  {
    var s := SpaceCapitals(DropIs(field));
    SpaceCapitalsFollowSpace(DropIs(field));
    var t := TrimStart(s);
    var r := TrimEnd(t);
    var off := |s| - |t|;
    forall i | 0 < i < |r| && IsUpper(r[i]) ensures r[i - 1] == ' ' {
      assert r[i] == t[i] == s[off + i];
      assert r[i - 1] == t[i - 1] == s[off + i - 1];
    }
  }

  lemma {:induction false} SpaceCapitalsAppend(a: string, b: string)
    ensures SpaceCapitals(a + b) == SpaceCapitals(a) + SpaceCapitals(b)
  {
    if a == [] {
      assert a + b == b;
    } else {
      assert (a + b)[0] == a[0] && (a + b)[1..] == a[1..] + b;
      SpaceCapitalsAppend(a[1..], b);
    }
  }

  lemma {:induction false} SpaceCapitalsNoCapital(s: string)
    requires forall i :: 0 <= i < |s| ==> !IsUpper(s[i])
    ensures SpaceCapitals(s) == s
  {
    if s != [] {
      SpaceCapitalsNoCapital(s[1..]);
    }
  }

  /** A capital letter followed by lower-case letters. */
  predicate Capitalised(w: string)
  {
    w != [] && IsUpper(w[0]) && forall i :: 1 <= i < |w| ==> IsLower(w[i])
  }

  /** A capitalised word gets a single space in front. */
  lemma CapitalisedWord(w: string)
    requires Capitalised(w)
    ensures SpaceCapitals(w) == [' '] + w
  {
    SpaceCapitalsNoCapital(w[1..]);
  }

  /** Two capitalised words run together are split by a space, with one more
      space in front. */
  lemma CapitalisedPair(a: string, b: string)
    requires Capitalised(a) && Capitalised(b)
    ensures SpaceCapitals(a + b) == [' '] + a + [' '] + b
  {
    CapitalisedWord(a);
    CapitalisedWord(b);
    SpaceCapitalsAppend(a, b);
  }

  /** Trimming text with one leading space and no trailing space drops that space. */
  lemma TrimOneLeadingSpace(t: string)
    requires |t| >= 2 && t[0] == ' ' && !IsSpace(t[1]) && !IsSpace(t[|t| - 1])
    ensures Trim(t) == t[1..]
  {
    assert TrimStart(t[1..]) == t[1..];
    assert TrimStart(t) == t[1..];
    assert TrimEnd(t[1..]) == t[1..];
  }

  /** The `is` prefix is dropped. */
  lemma DropIsPrefix(w: string)
    ensures DropIs("is" + w) == w
  {
    var f := "is" + w;
    assert f[..2] == "is" && f[2..] == w;
  }

  /** The label of a field named `is` followed by two capitalised words (as
      `isLimitedEdition`) is the two words separated by a space. */
  lemma TwoWordLabel(a: string, b: string)
    requires Capitalised(a) && Capitalised(b)
    ensures DisplayName("is" + a + b) == a + " " + b
  {
    var words := a + " " + b;
    SpacedPair(a, b);
    PairEnds(a, b);
    TrimOneLeadingSpace([' '] + words);
    assert ([' '] + words)[1..] == words;
  }

  lemma SpacedPair(a: string, b: string)
    requires Capitalised(a) && Capitalised(b)
    ensures SpaceCapitals(DropIs("is" + a + b)) == [' '] + (a + " " + b)
  {
    var w := a + b;
    assert "is" + a + b == "is" + w;
    DropIsPrefix(w);
    CapitalisedPair(a, b);
  }

  lemma PairEnds(a: string, b: string)
    requires Capitalised(a) && Capitalised(b)
    ensures var t := [' '] + (a + " " + b); |t| >= 2 && t[0] == ' ' && !IsSpace(t[1]) && !IsSpace(t[|t| - 1])
  {
    var t := [' '] + (a + " " + b);
    var first, last := a[0], b[|b| - 1];
    assert t[1] == first && t[|t| - 1] == last;
    assert IsUpper(first);
    assert IsUpper(last) || IsLower(last) by {
      if |b| > 1 {
        assert IsLower(b[|b| - 1]);
      }
    }
  }

}
