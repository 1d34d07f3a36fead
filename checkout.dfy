/** The checkout of `client/src/pages/CheckoutPage.jsx`: the two form checks,
    the shipping cost and the three-step machine (1 information, 2 shipping,
    3 payment). The forms are objects edited one field at a time, modelled as
    maps from field name to text where a missing field reads as `""`. Money is
    in integer cents. */
module Checkout {
  import opened Js

  type Info = map<string, string>

  /** A form field; `undefined` is falsy like `""`. */
  function Field(info: Info, name: string): string
  {
    if name in info then info[name] else ""
  }

  const InitialCustomerInfo: Info := map[
    "firstName" := "", "lastName" := "", "email" := "", "phone" := "", "company" := "",
    "address" := "", "apartment" := "", "city" := "", "country" := "Canada",
    "province" := "", "postalCode" := ""]

  const InitialPaymentInfo: Info := map[
    "method" := "credit-card", "cardNumber" := "", "cardName" := "", "expiryDate" := "", "cvv" := ""]

  /** The eight customer fields that must be filled in. */
  const RequiredCustomerFields: seq<string> :=
    ["firstName", "lastName", "email", "phone", "address", "city", "province", "postalCode"]

  const CardFields: seq<string> := ["cardNumber", "cardName", "expiryDate", "cvv"]

  /** `validateCustomerInfo`: the `&&` chain of the eight fields is truthy. */
  predicate ValidateCustomerInfo(info: Info)
  {
    Field(info, "firstName") != "" && Field(info, "lastName") != "" && Field(info, "email") != ""
    && Field(info, "phone") != "" && Field(info, "address") != "" && Field(info, "city") != ""
    && Field(info, "province") != "" && Field(info, "postalCode") != ""
  }

  /** The `&&` chain checks exactly the required fields. */
  lemma RequiredFieldsChecked(info: Info)
    ensures ValidateCustomerInfo(info) <==> forall k :: k in RequiredCustomerFields ==> Field(info, k) != ""
  {
    if ValidateCustomerInfo(info) {
      forall k | k in RequiredCustomerFields ensures Field(info, k) != "" {
        var j :| 0 <= j < |RequiredCustomerFields| && RequiredCustomerFields[j] == k;
      }
    } else {
      var f := RequiredCustomerFields;
      var j := if Field(info, f[0]) == "" then 0 else if Field(info, f[1]) == "" then 1
        else if Field(info, f[2]) == "" then 2 else if Field(info, f[3]) == "" then 3
        else if Field(info, f[4]) == "" then 4 else if Field(info, f[5]) == "" then 5
        else if Field(info, f[6]) == "" then 6 else 7;
      assert f[j] in f && Field(info, f[j]) == "";
    }
  }

  /** The customer information is accepted exactly when every required field is
      non-empty; the optional fields (company, apartment, country) play no part. */
  lemma ValidateCustomerInfoSpec(info: Info, name: string, value: string)
    ensures ValidateCustomerInfo(info) <==> forall k :: k in RequiredCustomerFields ==> Field(info, k) != ""
    ensures name !in RequiredCustomerFields ==>
      (ValidateCustomerInfo(info[name := value]) <==> ValidateCustomerInfo(info))
  {
    RequiredFieldsChecked(info);
    if name !in RequiredCustomerFields {
      RequiredFieldsChecked(info[name := value]);
      forall k | k in RequiredCustomerFields
        ensures Field(info[name := value], k) == Field(info, k)
      {
        assert k != name;
      }
    }
  }

  /** The page starts with the information step blocked. */
  lemma InitialInfoIsIncomplete()
    ensures !ValidateCustomerInfo(InitialCustomerInfo)
  {
    assert Field(InitialCustomerInfo, "firstName") == "";
  }

  /** `validatePaymentInfo`: a card payment needs the four card fields, any other
      method passes. */
  predicate ValidatePaymentInfo(info: Info)
  {
    if Field(info, "method") == "credit-card" then
      Field(info, "cardNumber") != "" && Field(info, "cardName") != ""
      && Field(info, "expiryDate") != "" && Field(info, "cvv") != ""
    else true
  }

  lemma ValidatePaymentInfoSpec(info: Info)
    ensures ValidatePaymentInfo(info) <==>
      (Field(info, "method") == "credit-card" ==> forall k :: k in CardFields ==> Field(info, k) != "")
    ensures Field(info, "method") != "credit-card" ==> ValidatePaymentInfo(info)
  {
  }

  // ---------------------------------------------------------------------------
  // Shipping

  datatype ShippingOption = ShippingOption(id: string, price: int)

  const ShippingOptions: seq<ShippingOption> :=
    [ShippingOption("standard", 1500), ShippingOption("express", 2500), ShippingOption("pickup", 0)]

  const FallbackShipping := 1500

  /** `shippingOptions.find(opt => opt.id === id)`. */
  function FindOption(options: seq<ShippingOption>, id: string): (r: Option<ShippingOption>)
    ensures r.Some? ==> r.value in options && r.value.id == id
    ensures r.None? ==> forall o :: o in options ==> o.id != id
  {
    if options == [] then None
    else if options[0].id == id then Some(options[0])
    else FindOption(options[1..], id)
  }

  /** `shipping`: pickup is free; otherwise the option's price, or 15 when no
      option matches or its price is falsy. */
  function ShippingCost(id: string): int
  {
    if id == "pickup" then 0
    else match FindOption(ShippingOptions, id)
      case Some(o) => if o.price != 0 then o.price else FallbackShipping
      case None => FallbackShipping
  }

  /** Pickup costs nothing, express $25, and standard or any unknown method $15. */
  lemma ShippingCostSpec(id: string)
    ensures id == "pickup" ==> ShippingCost(id) == 0
    ensures id == "express" ==> ShippingCost(id) == 2500
    ensures id != "pickup" && id != "express" ==> ShippingCost(id) == FallbackShipping
    ensures ShippingCost(id) == 0 <==> id == "pickup"
  {
    if id != "pickup" && id != "express" && id != "standard" {
      assert FindOption(ShippingOptions, id).None?;
    }
  }

  // ---------------------------------------------------------------------------
  // Steps

  class CheckoutState {
    var step: int
    var customerInfo: Info
    var shippingMethod: string
    var paymentInfo: Info
    var loading: bool

    /** No handler moves the step outside 1..3. */
    predicate Valid()
      reads this
    {
      1 <= step <= 3
    }

    constructor ()
      ensures step == 1 && customerInfo == InitialCustomerInfo && shippingMethod == "standard"
      ensures paymentInfo == InitialPaymentInfo && !loading
      ensures Valid()
    {
      step := 1;
      customerInfo := InitialCustomerInfo;
      shippingMethod := "standard";
      paymentInfo := InitialPaymentInfo;
      loading := false;
    }

    /** `handleInfoChange`. */
    method HandleInfoChange(name: string, value: string)
      modifies this
      ensures customerInfo == old(customerInfo)[name := value]
      ensures step == old(step) && paymentInfo == old(paymentInfo)
      ensures shippingMethod == old(shippingMethod) && loading == old(loading)
    {
      customerInfo := customerInfo[name := value];
    }

    /** `handlePaymentChange`. */
    method HandlePaymentChange(name: string, value: string)
      modifies this
      ensures paymentInfo == old(paymentInfo)[name := value]
      ensures step == old(step) && customerInfo == old(customerInfo)
      ensures shippingMethod == old(shippingMethod) && loading == old(loading)
    {
      paymentInfo := paymentInfo[name := value];
    }

    method SetShippingMethod(id: string)
      modifies this
      ensures shippingMethod == id
      ensures step == old(step) && customerInfo == old(customerInfo)
      ensures paymentInfo == old(paymentInfo) && loading == old(loading)
    {
      shippingMethod := id;
    }

    /** `goToNextStep`: step 1 moves on only with complete customer information,
        step 2 always moves on, and step 3 places the order (`placed`) when the
        payment is complete; otherwise nothing changes. */
    method GoToNextStep() returns (placed: bool)
      requires Valid()
      modifies this
      ensures old(step) == 1 ==> step == (if ValidateCustomerInfo(customerInfo) then 2 else 1)
      ensures old(step) == 2 ==> step == 3
      ensures old(step) == 3 ==> step == 3
      ensures placed <==> old(step) == 3 && ValidatePaymentInfo(paymentInfo)
      ensures loading == (placed || old(loading))
      ensures customerInfo == old(customerInfo) && paymentInfo == old(paymentInfo)
      ensures shippingMethod == old(shippingMethod)
      ensures Valid()
    {
      placed := false;
      if step == 1 && ValidateCustomerInfo(customerInfo) {
        step := 2;
      } else if step == 2 {
        step := 3;
      } else if step == 3 && ValidatePaymentInfo(paymentInfo) {
        loading := true;
        placed := true;
      }
    }

    /** `goToPreviousStep`: one step back, never below 1. */
    method GoToPreviousStep()
      requires Valid()
      modifies this
      ensures step == (if old(step) == 1 then 1 else old(step) - 1)
      ensures customerInfo == old(customerInfo) && paymentInfo == old(paymentInfo)
      ensures shippingMethod == old(shippingMethod) && loading == old(loading)
      ensures Valid()
    {
      step := if step - 1 < 1 then 1 else step - 1;
    }

    /** The shipping cost of the chosen method. */
    function Shipping(): (r: int)
      reads this
      ensures 0 <= r <= 2500
      ensures r == 0 <==> shippingMethod == "pickup"
    {
      ShippingCostSpec(shippingMethod);
      ShippingCost(shippingMethod)
    }
  }
}
