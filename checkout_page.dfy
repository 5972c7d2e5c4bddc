/** The checkout page object: the delivery and billing address lines, the names
    and count of the items under order review, and the checks over them. */
module CheckoutPage {
  import opened Outcomes
  import opened Text
  import opened Dom

  /** What the checkout page's locators return at the moment the page object reads it. */
  datatype CheckoutView = CheckoutView(
    deliveryVisible: bool,                 // `#address_delivery, .address.delivery` is visible
    billingVisible: bool,                  // `#address_invoice, .address.invoice` is visible
    reviewVisible: bool,                   // `#cart_info, .cart_info` is visible
    deliveryCells: seq<Option<string>>,    // `#address_delivery ul li, #address_delivery .address_details`
    billingCells: seq<Option<string>>,     // `#address_invoice ul li, #address_invoice .address_details`
    orderNameCells: seq<Option<string>>)   // `.cart_description h4 a`

  /** What `getCheckoutData` returns. */
  datatype CheckoutData = CheckoutData(
    deliveryAddress: seq<string>, billingAddress: seq<string>, orderItems: seq<string>, itemCount: nat)

  // ---------------------------------------------------------------------------
  // Address lines

  /** `xs.filter(x => x.length > 0)`: the non-empty strings, in order. */
  function DropEmpty(xs: seq<string>): (r: seq<string>)
    ensures IsSubsequence(r, xs)
    ensures forall i :: 0 <= i < |r| ==> r[i] != ""
  {
    if xs == [] then []
    else if |xs[0]| > 0 then
      var rest := DropEmpty(xs[1..]);
      assert ([xs[0]] + rest)[1..] == rest;
      [xs[0]] + rest
    else DropEmpty(xs[1..])
  }

  /** Every non-empty string appears in the result. */
  lemma {:induction false} DropEmptyComplete(xs: seq<string>)
    ensures forall i :: 0 <= i < |xs| && xs[i] != "" ==> xs[i] in DropEmpty(xs)
  {
    if xs != [] {
      DropEmptyComplete(xs[1..]);
      forall i | 0 <= i < |xs| && xs[i] != ""
        ensures xs[i] in DropEmpty(xs)
      {
        if i > 0 {
          assert xs[i] == xs[1..][i - 1];
        }
      }
    }
  }

  /** Every non-empty string is kept as many times as it occurs, and the empty
      string not at all. */
  lemma {:induction false} DropEmptyCounts(xs: seq<string>)
    ensures forall x :: multiset(DropEmpty(xs))[x] == if x == "" then 0 else multiset(xs)[x]
  {
    if xs != [] {
      DropEmptyCounts(xs[1..]);
      assert xs == [xs[0]] + xs[1..];
    }
  }

  /** The filter leaves nothing exactly when every string is empty. */
  lemma {:induction false} DropEmptyIsEmpty(xs: seq<string>)
    ensures DropEmpty(xs) == [] <==> forall i :: 0 <= i < |xs| ==> xs[i] == ""
  {
    if xs != [] {
      DropEmptyIsEmpty(xs[1..]);
      if forall i :: 0 <= i < |xs| ==> xs[i] == "" {
        assert forall i :: 0 <= i < |xs[1..]| ==> xs[1..][i] == xs[i + 1];
      } else if xs[0] == "" {
        var i :| 0 <= i < |xs| && xs[i] != "";
        assert xs[1..][i - 1] == xs[i];
      }
    }
  }

  /** The rule both address reads follow: every text trimmed, then the empty ones
      dropped. */
  function AddressLines(cells: seq<Option<string>>): (lines: seq<string>)
    ensures IsSubsequence(lines, TrimAll(AllTextContents(cells)))
    ensures forall i :: 0 <= i < |lines| ==> lines[i] != "" && IsTrimmed(lines[i])
  {
    var trimmed := TrimAll(AllTextContents(cells));
    var lines := DropEmpty(trimmed);
    assert forall i :: 0 <= i < |lines| ==> lines[i] in trimmed by {
      SubsequenceBounds(lines, trimmed);
    }
    lines
  }

  /** The address lines are at most as many as the texts read. */
  lemma AddressLinesBound(cells: seq<Option<string>>)
    ensures |AddressLines(cells)| <= |cells|
  {
    SubsequenceBounds(AddressLines(cells), TrimAll(AllTextContents(cells)));
  }

  /** Every text that is not only whitespace contributes its trimmed form. */
  lemma AddressLinesComplete(cells: seq<Option<string>>)
    ensures forall i :: 0 <= i < |cells| && Trim(cells[i].GetOr("")) != "" ==>
      Trim(cells[i].GetOr("")) in AddressLines(cells)
  {
    var trimmed := TrimAll(AllTextContents(cells));
    DropEmptyComplete(trimmed);
    assert forall i :: 0 <= i < |cells| ==> trimmed[i] == Trim(cells[i].GetOr(""));
  }

  /** Every trimmed text that is not empty gives one address line per
      occurrence, and nothing else does. */
  lemma AddressLinesCounts(cells: seq<Option<string>>)
    ensures forall x ::
      multiset(AddressLines(cells))[x] == if x == "" then 0 else multiset(TrimAll(AllTextContents(cells)))[x]
  {
    DropEmptyCounts(TrimAll(AllTextContents(cells)));
  }

  /** There is no address line exactly when every text is empty or whitespace. */
  lemma AddressLinesEmpty(cells: seq<Option<string>>)
    ensures AddressLines(cells) == [] <==> forall i :: 0 <= i < |cells| ==> Trim(cells[i].GetOr("")) == ""
  {
    var trimmed := TrimAll(AllTextContents(cells));
    DropEmptyIsEmpty(trimmed);
    assert forall i :: 0 <= i < |cells| ==> trimmed[i] == Trim(cells[i].GetOr(""));
  }

  /** `getDeliveryAddress`. */
  function GetDeliveryAddress(v: CheckoutView): (lines: seq<string>)
    ensures forall i :: 0 <= i < |lines| ==> lines[i] != "" && IsTrimmed(lines[i])
    ensures IsSubsequence(lines, TrimAll(AllTextContents(v.deliveryCells)))
    ensures forall x :: multiset(lines)[x] == if x == "" then 0 else multiset(TrimAll(AllTextContents(v.deliveryCells)))[x]
  {
    AddressLinesCounts(v.deliveryCells);
    AddressLines(v.deliveryCells)
  }

  /** `getBillingAddress`. */
  function GetBillingAddress(v: CheckoutView): (lines: seq<string>)
    ensures forall i :: 0 <= i < |lines| ==> lines[i] != "" && IsTrimmed(lines[i])
    ensures IsSubsequence(lines, TrimAll(AllTextContents(v.billingCells)))
    ensures forall x :: multiset(lines)[x] == if x == "" then 0 else multiset(TrimAll(AllTextContents(v.billingCells)))[x]
  {
    AddressLinesCounts(v.billingCells);
    AddressLines(v.billingCells)
  }

  /** Delivery and billing addresses are read by the same rule, so identical
      texts give identical lines. */
  lemma AddressesAgree(v: CheckoutView)
    requires v.deliveryCells == v.billingCells
    ensures GetDeliveryAddress(v) == GetBillingAddress(v)
  {
  }

  /** `verifyDeliveryAddressVisible`: the section is visible and some line has
      text other than whitespace. */
  function VerifyDeliveryAddressVisible(v: CheckoutView): (c: Check)
    ensures c == Pass <==>
      v.deliveryVisible && exists i :: 0 <= i < |v.deliveryCells| && Trim(v.deliveryCells[i].GetOr("")) != ""
    ensures c != Pass ==> c == Fail(AssertionFailed)
  {
    AddressLinesEmpty(v.deliveryCells);
    if !v.deliveryVisible then Fail(AssertionFailed)
    else if |GetDeliveryAddress(v)| > 0 then Pass
    else Fail(AssertionFailed)
  }

  /** `verifyBillingAddressVisible`: the section is visible and some line has
      text other than whitespace. */
  function VerifyBillingAddressVisible(v: CheckoutView): (c: Check)
    ensures c == Pass <==>
      v.billingVisible && exists i :: 0 <= i < |v.billingCells| && Trim(v.billingCells[i].GetOr("")) != ""
    ensures c != Pass ==> c == Fail(AssertionFailed)
  {
    AddressLinesEmpty(v.billingCells);
    if !v.billingVisible then Fail(AssertionFailed)
    else if |GetBillingAddress(v)| > 0 then Pass
    else Fail(AssertionFailed)
  }

  // ---------------------------------------------------------------------------
  // Order review

  /** `getOrderItemNames`: every name trimmed, same length, same order. */
  function GetOrderItemNames(v: CheckoutView): (names: seq<string>)
    ensures |names| == |v.orderNameCells|
    ensures forall i :: 0 <= i < |names| ==> names[i] == Trim(v.orderNameCells[i].GetOr(""))
  {
    TrimAll(AllTextContents(v.orderNameCells))
  }

  /** `getOrderItemCount`: the number of product-name elements, which is the
      number of names `getOrderItemNames` returns. */
  function GetOrderItemCount(v: CheckoutView): (count: nat)
    ensures count == |GetOrderItemNames(v)|
  {
    |v.orderNameCells|
  }

  /** `verifyOrderReviewItems`: the review section is visible and holds at least
      one item, and, when an expected count is given, exactly that many. */
  function VerifyOrderReviewItems(v: CheckoutView, expectedItemCount: Option<int>): (c: Check)
    ensures c == Pass <==>
      v.reviewVisible && |v.orderNameCells| > 0 &&
      (expectedItemCount.Some? ==> expectedItemCount.value == |v.orderNameCells|)
    ensures c != Pass ==> c == Fail(AssertionFailed)
  {
    if !v.reviewVisible then Fail(AssertionFailed)
    else
      var itemCount := GetOrderItemCount(v);
      if itemCount <= 0 then Fail(AssertionFailed)
      else if expectedItemCount.Some? && itemCount != expectedItemCount.value then Fail(AssertionFailed)
      else Pass
  }

  /** An empty order review always fails, whatever count is expected. */
  lemma EmptyReviewFails(v: CheckoutView, expectedItemCount: Option<int>)
    requires v.orderNameCells == []
    ensures VerifyOrderReviewItems(v, expectedItemCount) == Fail(AssertionFailed)
  {
  }

  /** `verifyProductInOrder`: passes iff some trimmed order name contains the
      product name. */
  function VerifyProductInOrder(v: CheckoutView, productName: string): (c: Check)
    ensures c == Pass <==>
      exists i :: 0 <= i < |v.orderNameCells| && Contains(Trim(v.orderNameCells[i].GetOr("")), productName)
    ensures c != Pass ==> c == Fail(AssertionFailed)
  {
    var productNames := GetOrderItemNames(v);
    if exists i :: 0 <= i < |productNames| && Contains(productNames[i], productName) then Pass
    else Fail(AssertionFailed)
  }

  /** An order that lists a product under exactly its name passes the check for
      that name, as when a scenario looks up the product it added. */
  lemma ProductInOrderByExactName(v: CheckoutView, productName: string, i: nat)
    requires i < |v.orderNameCells| && Trim(v.orderNameCells[i].GetOr("")) == productName
    ensures VerifyProductInOrder(v, productName) == Pass
  {
    assert OccursAt(productName, productName, 0);
  }

  /** `getCheckoutData`: the four reads, collected. */
  function GetCheckoutData(v: CheckoutView): (d: CheckoutData)
    ensures d.itemCount == |d.orderItems|
    ensures d.deliveryAddress == GetDeliveryAddress(v) && d.billingAddress == GetBillingAddress(v)
    ensures d.orderItems == GetOrderItemNames(v)
  {
    CheckoutData(GetDeliveryAddress(v), GetBillingAddress(v), GetOrderItemNames(v), GetOrderItemCount(v))
  }
}
