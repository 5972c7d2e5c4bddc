/** The cart page object: reading product rows, parsing prices and quantities,
    the name lookup used for removal, and the check that the displayed grand
    total is the sum of unit price times quantity over all rows. */
module CartPage {
  import opened Outcomes
  import opened Text
  import opened Decimal
  import opened Dom

  /** What the cart page's locators return at the moment the page object reads it. */
  datatype CartView = CartView(
    rowCount: nat,                         // product rows of the cart table (a failed count reads as 0)
    nameCells: seq<Option<string>>,        // `.cart_description h4 a`
    priceCells: seq<Option<string>>,       // `.cart_price p`
    quantityCells: seq<Option<string>>,    // `.cart_quantity button, .cart_quantity .disabled`
    lineTotalCells: seq<Option<string>>,   // `.cart_total_price`
    grandTotalCells: seq<Option<string>>)  // `#total_amount, .cart_total_price`, of which the last is read

  /** One product row as `getCartData` assembles it. */
  datatype CartRow = CartRow(name: string, price: string, quantity: Option<int>, total: string)

  /** The snapshot `getCartData` returns. */
  datatype CartData = CartData(itemCount: nat, products: seq<CartRow>, totalPrice: string)

  // ---------------------------------------------------------------------------
  // Prices

  /** `parsePriceToNumber`: keep the digit characters, `parseInt` them, and
      read NaN (no digits) as 0. The result is the decimal value of the digits. */
  function ParsePriceToNumber(price: string): (n: nat)
    ensures n == DecimalValue(Digits(price))
  {
    var ds := Digits(price);
    var parsed := ParseInt(ds);
    assert ds != [] ==> parsed == Some(DecimalValue(ds)) by {
      assert AllDigits(ds);
    }
    if parsed.None? || parsed.value == 0 then 0 else parsed.value
  }

  /** A price text with no digit parses to 0. */
  lemma ParsePriceWithoutDigits(price: string)
    requires NoDigits(price)
    ensures ParsePriceToNumber(price) == 0
  {
    DigitsOfNoDigits(price);
  }

  /** Round trip: any digit-free prefix (a currency label such as "Rs. ")
      followed by the decimal form of n parses back to n. */
  lemma ParsePriceRoundTrip(prefix: string, n: nat)
    requires NoDigits(prefix)
    ensures ParsePriceToNumber(prefix + DecimalString(n)) == n
  {
    DigitsOfConcat(prefix, DecimalString(n));
    DigitsOfNoDigits(prefix);
    DigitsOfAllDigits(DecimalString(n));
    assert Digits(prefix + DecimalString(n)) == DecimalString(n);
  }

  /** A non-digit separator (a thousands comma, a space) does not change the value. */
  lemma ParsePriceIgnoresSeparator(before: string, separator: char, after: string)
    requires !IsDigit(separator)
    ensures ParsePriceToNumber(before + [separator] + after) == ParsePriceToNumber(before + after)
  {
    DigitsWithoutSeparator(before, separator, after);
  }

  lemma DigitsWithoutSeparator(before: string, separator: char, after: string)
    requires !IsDigit(separator)
    ensures Digits(before + [separator] + after) == Digits(before + after)
  {
    DigitsOfConcat(before + [separator], after);
    DigitsOfConcat(before, [separator]);
    DigitsOfConcat(before, after);
    assert Digits([separator]) == [];
  }

  /** Whitespace around a price text does not change its value. */
  lemma ParsePriceIgnoresPadding(price: string)
    ensures ParsePriceToNumber(Trim(price)) == ParsePriceToNumber(price)
  {
    DigitsOfTrim(price);
  }

  lemma DigitsOfTrim(s: string)
    ensures Digits(Trim(s)) == Digits(s)
  {
    TrimIsInfix(s);
    TrimDropsOnlySpace(s);
    var k := |s| - |TrimStart(s)|;
    var m := k + |Trim(s)|;
    var before, after := s[..k], s[m..];
    assert s == before + Trim(s) + after;
    assert NoDigits(before) by {
      forall i | 0 <= i < |before| ensures !IsDigit(before[i]) {
        assert IsSpace(before[i]);
      }
    }
    assert NoDigits(after) by {
      forall i | 0 <= i < |after| ensures !IsDigit(after[i]) {
        assert IsSpace(after[i]);
      }
    }
    DigitsOfConcat(before + Trim(s), after);
    DigitsOfConcat(before, Trim(s));
    DigitsOfNoDigits(before);
    DigitsOfNoDigits(after);
  }

  /** The displayed format of the cart: "Rs. 500" is 500. */
  lemma ParsePriceOfPlainPrice()
    ensures ParsePriceToNumber("Rs. 500") == 500
  {
    DecimalStringExamples();
    assert Digits("Rs. 500") == DecimalString(500);
  }

  /** A thousands separator is skipped: "Rs. 1,300" is 1300. */
  lemma ParsePriceOfSeparatedPrice()
    ensures ParsePriceToNumber("Rs. 1,300") == 1300
  {
    DecimalStringExamples();
    assert Digits("Rs. 1,300") == DecimalString(1300);
  }

  lemma DecimalStringExamples()
    ensures DecimalString(500) == "500" && DecimalString(1300) == "1300"
  {
  }

  // ---------------------------------------------------------------------------
  // Reads by row index

  /** The text `getProductPrice(i)` returns for a row that exists. */
  function PriceText(v: CartView, i: nat): string
    requires i < |v.priceCells|
  {
    TextOr(v.priceCells[i], "")
  }

  /** `getProductQuantity(i)` for a row that exists: a null or empty text reads as
      "0", it is trimmed and given to `parseInt`; None stands for NaN. */
  function QuantityAt(v: CartView, i: nat): Option<int>
    requires i < |v.quantityCells|
  {
    ParseInt(Trim(TextOr(v.quantityCells[i], "0")))
  }

  /** `getProductPrice(i)`: times out when there is no i-th price cell. */
  function ProductPrice(v: CartView, i: nat): (r: Result<string>)
    ensures r.Ok? <==> i < |v.priceCells|
    ensures r.Ok? ==> r.value == PriceText(v, i)
    ensures r.Err? ==> r.failure == Timeout
  {
    match NthText(v.priceCells, i)
    case Err(f) => Err(f)
    case Ok(_) => Ok(PriceText(v, i))
  }

  /** `getProductQuantity(i)`: times out when there is no i-th quantity cell. */
  function ProductQuantity(v: CartView, i: nat): (r: Result<Option<int>>)
    ensures r.Ok? <==> i < |v.quantityCells|
    ensures r.Ok? ==> r.value == QuantityAt(v, i)
    ensures r.Err? ==> r.failure == Timeout
  {
    match NthText(v.quantityCells, i)
    case Err(f) => Err(f)
    case Ok(_) => Ok(QuantityAt(v, i))
  }

  /** A displayed quantity that is a number in decimal reads as that number, and
      an empty cell reads as 0. */
  lemma QuantityOfDecimal(v: CartView, i: nat, n: nat)
    requires i < |v.quantityCells|
    requires v.quantityCells[i] == Some(DecimalString(n)) || v.quantityCells[i] == None || v.quantityCells[i] == Some("")
    ensures QuantityAt(v, i) == Some(if v.quantityCells[i] == Some(DecimalString(n)) then n else 0)
  {
    if v.quantityCells[i] == Some(DecimalString(n)) {
      assert IsTrimmed(DecimalString(n));
      TrimOfTrimmed(DecimalString(n));
      ParseIntOfDecimalString(n);
    } else {
      assert TextOr(v.quantityCells[i], "0") == DecimalString(0);
      TrimOfTrimmed("0");
      ParseIntOfDecimalString(0);
    }
  }

  /** `getProductTotal(i)`: times out when there is no i-th line-total cell. */
  function ProductTotal(v: CartView, i: nat): (r: Result<string>)
    ensures r.Ok? <==> i < |v.lineTotalCells|
    ensures r.Ok? ==> r.value == TextOr(v.lineTotalCells[i], "")
    ensures r.Err? ==> r.failure == Timeout
  {
    match NthText(v.lineTotalCells, i)
    case Err(f) => Err(f)
    case Ok(t) => Ok(TextOr(t, ""))
  }

  /** `getTotalPrice`: the last grand-total cell, trimmed; times out when none matches. */
  function TotalPrice(v: CartView): (r: Result<string>)
    ensures r.Ok? <==> v.grandTotalCells != []
    ensures r.Ok? ==> r.value == Trim(v.grandTotalCells[|v.grandTotalCells| - 1].GetOr(""))
    ensures r.Ok? ==> IsTrimmed(r.value)
    ensures r.Err? ==> r.failure == Timeout
  {
    match LastText(v.grandTotalCells)
    case Err(f) => Err(f)
    case Ok(t) => Ok(Trim(TextOr(t, "")))
  }

  // ---------------------------------------------------------------------------
  // Names, emptiness and lookup

  /** `getProductNames`: nothing when the cart has no product row, otherwise every
      name cell's text trimmed, in order. */
  function ProductNames(v: CartView): (names: seq<string>)
    ensures v.rowCount == 0 ==> names == []
    ensures v.rowCount > 0 ==> |names| == |v.nameCells|
    ensures v.rowCount > 0 ==> forall i :: 0 <= i < |names| ==> names[i] == Trim(v.nameCells[i].GetOr(""))
    ensures forall i :: 0 <= i < |names| ==> IsTrimmed(names[i])
  {
    if v.rowCount == 0 then [] else TrimAll(AllTextContents(v.nameCells))
  }

  /** `isCartEmpty`: the structural signal, no product row. */
  function IsCartEmpty(v: CartView): (empty: bool)
    ensures empty <==> v.rowCount == 0
  {
    v.rowCount == 0
  }

  /** `names.findIndex(name => name.includes(text))` from position `from` on:
      the first matching index, or -1 when no name matches. */
  function FindIndexFrom(names: seq<string>, text: string, from: nat): (r: int)
    requires from <= |names|
    ensures r == -1 || from <= r < |names|
    ensures r == -1 <==> forall i :: from <= i < |names| ==> !Contains(names[i], text)
    ensures r != -1 ==> Contains(names[r], text)
    ensures r != -1 ==> forall j :: from <= j < r ==> !Contains(names[j], text)
    decreases |names| - from
  {
    if from == |names| then -1
    else if Contains(names[from], text) then from
    else FindIndexFrom(names, text, from + 1)
  }

  /** `names.findIndex(name => name.includes(text))`. */
  function FindIndex(names: seq<string>, text: string): (r: int)
    ensures -1 <= r < |names|
    ensures r == -1 <==> forall i :: 0 <= i < |names| ==> !Contains(names[i], text)
    ensures r != -1 ==> Contains(names[r], text) && forall j :: 0 <= j < r ==> !Contains(names[j], text)
  {
    FindIndexFrom(names, text, 0)
  }

  /** `removeProductByName`: the index of the row whose remove button is clicked,
      the first whose name contains the text; None when no name does, and then
      nothing is clicked. */
  function RemoveProductByName(v: CartView, productName: string): (clicked: Option<nat>)
    ensures clicked.None? <==>
      forall i :: 0 <= i < |ProductNames(v)| ==> !Contains(ProductNames(v)[i], productName)
    ensures clicked.Some? ==> clicked.value < |ProductNames(v)|
    ensures clicked.Some? ==> Contains(ProductNames(v)[clicked.value], productName)
    ensures clicked.Some? ==>
      forall j :: 0 <= j < clicked.value ==> !Contains(ProductNames(v)[j], productName)
  {
    var index := FindIndex(ProductNames(v), productName);
    if index == -1 then None else Some(index)
  }

  /** `verifyProductInCart`: passes iff some product name contains the text. */
  function VerifyProductInCart(v: CartView, productName: string): (c: Check)
    ensures c == Pass <==>
      exists i :: 0 <= i < |ProductNames(v)| && Contains(ProductNames(v)[i], productName)
    ensures c != Pass ==> c == Fail(AssertionFailed)
  {
    var names := ProductNames(v);
    if exists i :: 0 <= i < |names| && Contains(names[i], productName) then Pass
    else Fail(AssertionFailed)
  }

  /** A product the cart check finds is exactly a product removal would click. */
  lemma InCartIffRemovable(v: CartView, productName: string)
    ensures VerifyProductInCart(v, productName) == Pass <==> RemoveProductByName(v, productName).Some?
  {
    var names := ProductNames(v);
    if RemoveProductByName(v, productName).Some? {
      var k := RemoveProductByName(v, productName).value;
      assert 0 <= k < |names| && Contains(names[k], productName);
    }
  }

  /** `verifyEmptyCartMessage`: passes iff the cart has no product row. */
  function VerifyEmptyCartMessage(v: CartView): (c: Check)
    ensures c == Pass <==> v.rowCount == 0
    ensures c != Pass ==> c == Fail(AssertionFailed)
  {
    if IsCartEmpty(v) && v.rowCount == 0 then Pass else Fail(AssertionFailed)
  }

  // ---------------------------------------------------------------------------
  // The total-price check

  /** A row as the total check sees it: its parsed unit price and its parsed
      quantity, None standing for NaN. */
  datatype Line = Line(price: nat, quantity: Option<int>)

  /** `price * quantity` where the quantity may be NaN. */
  function LineAmount(line: Line): (r: Option<int>)
    ensures r.Some? <==> line.quantity.Some?
    ensures r.Some? ==> r.value == line.price * line.quantity.value
  {
    match line.quantity
    case None => None
    case Some(q) => Some(line.price * q)
  }

  /** `total + amount` where either may be NaN, which absorbs. */
  function AddAmount(total: Option<int>, amount: Option<int>): (r: Option<int>)
    ensures r.Some? <==> total.Some? && amount.Some?
    ensures r.Some? ==> r.value == total.value + amount.value
  {
    if total.Some? && amount.Some? then Some(total.value + amount.value) else None
  }

  /** The running sum of the line amounts, added up in order from 0. */
  function Total(lines: seq<Line>): Option<int>
  {
    if lines == [] then Some(0)
    else AddAmount(Total(lines[..|lines| - 1]), LineAmount(lines[|lines| - 1]))
  }

  /** The sum is NaN exactly when some line's quantity is NaN. */
  lemma {:induction false} TotalNaN(lines: seq<Line>)
    ensures Total(lines).None? <==> exists i :: 0 <= i < |lines| && lines[i].quantity.None?
  {
    if lines != [] {
      var init := lines[..|lines| - 1];
      TotalNaN(init);
      if lines[|lines| - 1].quantity.None? {
        assert Total(lines).None?;
      } else if Total(lines).None? {
        var i :| 0 <= i < |init| && init[i].quantity.None?;
        assert lines[i] == init[i];
      } else {
        forall i | 0 <= i < |lines|
          ensures lines[i].quantity.Some?
        {
          if i < |init| { assert lines[i] == init[i]; }
        }
      }
    }
  }

  /** Row i as the total check reads it. */
  function LineAt(v: CartView, i: nat): Line
    requires i < |v.priceCells| && i < |v.quantityCells|
  {
    Line(ParsePriceToNumber(PriceText(v, i)), QuantityAt(v, i))
  }

  /** Every row that has both cells, as the total check reads it. */
  function RowLines(v: CartView): int --> Line
  {
    i requires 0 <= i < |v.priceCells| && i < |v.quantityCells| => LineAt(v, i)
  }

  /** The first n rows as the total check reads them, in row order. */
  function LinesUpTo(v: CartView, n: nat): (lines: seq<Line>)
    requires n <= |v.priceCells| && n <= |v.quantityCells|
    ensures |lines| == n
  {
    seq(n, RowLines(v))
  }

  /** The sum of unit price times quantity over the first n rows, added up in
      row order; NaN as soon as one quantity is NaN. */
  function ExpectedTotal(v: CartView, n: nat): Option<int>
    requires n <= |v.priceCells| && n <= |v.quantityCells|
  {
    Total(LinesUpTo(v, n))
  }

  /** Reading one more line adds its amount to the sum of the lines read so far. */
  lemma TotalOfLonger(f: int --> Line, n: nat)
    requires forall i :: 0 <= i <= n ==> f.requires(i)
    ensures Total(seq(n + 1, f)) == AddAmount(Total(seq(n, f)), LineAmount(f(n)))
  {
    assert seq(n + 1, f)[..n] == seq(n, f);
    assert seq(n + 1, f)[n] == f(n);
  }

  /** One more row adds its amount to the expected total. */
  lemma ExpectedTotalStep(v: CartView, n: nat)
    requires n < |v.priceCells| && n < |v.quantityCells|
    ensures ExpectedTotal(v, n + 1) == AddAmount(ExpectedTotal(v, n), LineAmount(LineAt(v, n)))
  {
    TotalOfLonger(RowLines(v), n);
  }

  /** The expected total is NaN exactly when some row's quantity is NaN. */
  lemma ExpectedTotalNaN(v: CartView, n: nat)
    requires n <= |v.priceCells| && n <= |v.quantityCells|
    ensures ExpectedTotal(v, n).None? <==> exists i :: 0 <= i < n && QuantityAt(v, i).None?
  {
    var lines := LinesUpTo(v, n);
    TotalNaN(lines);
    forall i | 0 <= i < n ensures lines[i].quantity == QuantityAt(v, i) {
      assert lines[i] == LineAt(v, i);
    }
  }

  /** What `verifyTotalPriceCalculation` decides. Reading a price or a quantity
      of a row that is not there, or a grand total that is not there, times out;
      otherwise the check passes iff the parsed grand total equals the expected
      total. */
  function TotalCheck(v: CartView): (c: Check)
    ensures c.Fail? && c.failure == Timeout <==>
      (v.rowCount > |v.priceCells| || v.rowCount > |v.quantityCells| || v.grandTotalCells == [])
    ensures c == Pass <==>
      v.rowCount <= |v.priceCells| && v.rowCount <= |v.quantityCells| && TotalPrice(v).Ok? &&
      ExpectedTotal(v, v.rowCount) == Some(ParsePriceToNumber(TotalPrice(v).value))
  {
    if v.rowCount > |v.priceCells| || v.rowCount > |v.quantityCells| || v.grandTotalCells == [] then
      Fail(Timeout)
    else if ExpectedTotal(v, v.rowCount) == Some(ParsePriceToNumber(TotalPrice(v).value)) then Pass
    else Fail(AssertionFailed)
  }

  /** A parsed grand total is never NaN, so the check fails whenever some
      quantity of the cart is not a number. */
  lemma TotalCheckNeedsNumericQuantities(v: CartView)
    requires TotalCheck(v) == Pass
    ensures forall i :: 0 <= i < v.rowCount ==> QuantityAt(v, i).Some?
  {
    ExpectedTotalNaN(v, v.rowCount);
  }

  /** `verifyTotalPriceCalculation`: accumulates price times quantity row by row
      and compares the sum with the parsed grand total. */
  method VerifyTotalPriceCalculation(v: CartView) returns (c: Check)
    ensures c == TotalCheck(v)
  {
    var itemCount := v.rowCount;
    var expectedTotal: Option<int> := Some(0);
    for i := 0 to itemCount
      invariant i <= |v.priceCells| && i <= |v.quantityCells|
      invariant expectedTotal == ExpectedTotal(v, i)
    {
      var priceText := ProductPrice(v, i);
      if priceText.Err? {
        return Fail(priceText.failure);
      }
      var quantity := ProductQuantity(v, i);
      if quantity.Err? {
        return Fail(quantity.failure);
      }
      var price := ParsePriceToNumber(priceText.value);
      ExpectedTotalStep(v, i);
      expectedTotal := AddAmount(expectedTotal, LineAmount(Line(price, quantity.value)));
    }
    var actualTotalText := TotalPrice(v);
    if actualTotalText.Err? {
      return Fail(actualTotalText.failure);
    }
    var actualTotal := ParsePriceToNumber(actualTotalText.value);
    c := if expectedTotal == Some(actualTotal) then Pass else Fail(AssertionFailed);
  }

  /** The grand-total locator also matches the line-total cells, which carry the
      same class. On a page with no separate grand-total cell the cells it
      matches are the line totals, and the check then compares the sum with the
      last row's line total. */
  lemma TotalCheckWithoutGrandTotalCell(v: CartView)
    requires v.grandTotalCells == v.lineTotalCells && v.lineTotalCells != []
    requires v.rowCount <= |v.priceCells| && v.rowCount <= |v.quantityCells|
    ensures TotalCheck(v) == Pass <==>
      ExpectedTotal(v, v.rowCount) == Some(ParsePriceToNumber(v.lineTotalCells[|v.lineTotalCells| - 1].GetOr("")))
  {
    ParsePriceIgnoresPadding(v.lineTotalCells[|v.lineTotalCells| - 1].GetOr(""));
  }

  /** With no product row the check passes iff the grand total parses to 0. */
  lemma EmptyCartTotal(v: CartView)
    requires IsCartEmpty(v) && v.grandTotalCells != []
    ensures TotalCheck(v) == Pass <==> ParsePriceToNumber(TotalPrice(v).value) == 0
  {
  }


  /** The cart displays, row by row, a unit price as a label without digits
      followed by the decimal form of `prices[i]`, and the quantity as the
      decimal form of `quantities[i]`. */
  predicate Displays(v: CartView, prefix: string, prices: seq<nat>, quantities: seq<nat>) {
    && |v.priceCells| == |prices| && |v.quantityCells| == |quantities| && |prices| == |quantities|
    && (forall i :: 0 <= i < |prices| ==> v.priceCells[i] == Some(prefix + DecimalString(prices[i])))
    && (forall i :: 0 <= i < |quantities| ==> v.quantityCells[i] == Some(DecimalString(quantities[i])))
  }

  /** The sum of `prices[i] * quantities[i]` over the first n rows. */
  function DotSum(prices: seq<nat>, quantities: seq<nat>, n: nat): nat
    requires n <= |prices| && n <= |quantities|
  {
    if n == 0 then 0 else DotSum(prices, quantities, n - 1) + prices[n - 1] * quantities[n - 1]
  }

  /** Such a row reads back as the displayed unit price and quantity. */
  lemma LineOfDisplayed(v: CartView, prefix: string, prices: seq<nat>, quantities: seq<nat>, i: nat)
    requires NoDigits(prefix) && Displays(v, prefix, prices, quantities) && i < |prices|
    ensures LineAt(v, i) == Line(prices[i], Some(quantities[i]))
  {
    ParsePriceRoundTrip(prefix, prices[i]);
    QuantityOfDecimal(v, i, quantities[i]);
  }

  /** The lines of the given unit prices and quantities. */
  function NumberLines(prices: seq<nat>, quantities: seq<nat>): int --> Line
  {
    i requires 0 <= i < |prices| && i < |quantities| => Line(prices[i], Some(quantities[i]))
  }

  /** Lines with known numbers add up to the sum of unit price times quantity. */
  lemma {:induction false} TotalOfNumbers(prices: seq<nat>, quantities: seq<nat>, n: nat)
    requires n <= |prices| && n <= |quantities|
    ensures Total(seq(n, NumberLines(prices, quantities))) == Some(DotSum(prices, quantities, n))
  {
    if n > 0 {
      TotalOfNumbers(prices, quantities, n - 1);
      TotalOfLonger(NumberLines(prices, quantities), n - 1);
    }
  }

  /** On such a cart whose grand total shows the decimal form of `total` after a
      label without digits, the check passes iff `total` is the sum of unit price
      times quantity over all rows, and otherwise fails its assertion. */
  lemma TotalCheckOfDisplayedCart(v: CartView, prefix: string, prices: seq<nat>, quantities: seq<nat>,
                                  totalPrefix: string, total: nat)
    requires NoDigits(prefix) && Displays(v, prefix, prices, quantities) && v.rowCount == |prices|
    requires NoDigits(totalPrefix)
    requires v.grandTotalCells != [] && v.grandTotalCells[|v.grandTotalCells| - 1] == Some(totalPrefix + DecimalString(total))
    ensures TotalCheck(v) == Pass <==> total == DotSum(prices, quantities, |prices|)
    ensures TotalCheck(v) != Pass ==> TotalCheck(v) == Fail(AssertionFailed)
  {
    assert LinesUpTo(v, |prices|) == seq(|prices|, NumberLines(prices, quantities)) by {
      forall i | 0 <= i < |prices|
        ensures LinesUpTo(v, |prices|)[i] == seq(|prices|, NumberLines(prices, quantities))[i]
      {
        LineOfDisplayed(v, prefix, prices, quantities, i);
      }
    }
    TotalOfNumbers(prices, quantities, |prices|);
    assert TotalPrice(v).value == Trim(totalPrefix + DecimalString(total));
    ParsePriceIgnoresPadding(totalPrefix + DecimalString(total));
    ParsePriceRoundTrip(totalPrefix, total);
  }

  /** The total-price scenario: rows "Rs. 500" x 2 and "Rs. 300" x 1 pass under a
      grand total of "Rs. 1300" and fail under any other displayed amount. */
  lemma TotalCheckScenario(v: CartView, total: nat)
    requires v.rowCount == 2 && Displays(v, "Rs. ", [500, 300], [2, 1])
    requires v.grandTotalCells != [] && v.grandTotalCells[|v.grandTotalCells| - 1] == Some("Rs. " + DecimalString(total))
    ensures TotalCheck(v) == Pass <==> total == 1300
    ensures total != 1300 ==> TotalCheck(v) == Fail(AssertionFailed)
  {
    assert NoDigits("Rs. ");
    TotalCheckOfDisplayedCart(v, "Rs. ", [500, 300], [2, 1], "Rs. ", total);
    assert DotSum([500, 300], [2, 1], 2) == 1300;
  }

  // ---------------------------------------------------------------------------
  // The cart snapshot

  /** Every row up to n has a name, a price, a quantity and a line-total cell. */
  predicate RowsReadable(v: CartView, n: nat) {
    n <= |v.nameCells| && n <= |v.priceCells| && n <= |v.quantityCells| && n <= |v.lineTotalCells|
  }

  /** The name `getCartData` reads for row i: trimmed, "" for a null text. */
  function NameAt(v: CartView, i: nat): (name: string)
    requires i < |v.nameCells|
    ensures name == Trim(v.nameCells[i].GetOr(""))
    ensures v.nameCells[i].None? ==> name == ""
    ensures IsTrimmed(name)
  {
    match v.nameCells[i]
    case None => ""
    case Some(t) => TextOr(Some(Trim(t)), "")
  }

  /** Row i as `getCartData` assembles it. */
  function RowAt(v: CartView, i: nat): CartRow
    requires RowsReadable(v, i + 1)
  {
    CartRow(NameAt(v, i), PriceText(v, i), QuantityAt(v, i), TextOr(v.lineTotalCells[i], ""))
  }

  /** A snapshot row carries the same name `getProductNames` returns for that row. */
  lemma SnapshotNameIsProductName(v: CartView, i: nat)
    requires v.rowCount > 0 && i < |v.nameCells|
    ensures NameAt(v, i) == ProductNames(v)[i]
  {
  }

  /** The first n rows, in index order. */
  function RowsUpTo(v: CartView, n: nat): (rows: seq<CartRow>)
    requires RowsReadable(v, n)
    ensures |rows| == n
    ensures forall i :: 0 <= i < n ==> rows[i] == RowAt(v, i)
  {
    seq(n, i requires 0 <= i < n => RowAt(v, i))
  }

  /** What `getCartData` returns: exactly one product entry per row, in index
      order, with the item count and the grand-total text; it times out when a
      row's cell or the grand total is missing. */
  function CartSnapshot(v: CartView): (r: Result<CartData>)
    ensures r.Ok? <==> RowsReadable(v, v.rowCount) && v.grandTotalCells != []
    ensures r.Ok? ==> r.value.itemCount == v.rowCount && |r.value.products| == v.rowCount
    ensures r.Ok? ==> forall i :: 0 <= i < v.rowCount ==> r.value.products[i] == RowAt(v, i)
    ensures r.Ok? ==> TotalPrice(v) == Ok(r.value.totalPrice)
    ensures r.Err? ==> r.failure == Timeout
  {
    if !RowsReadable(v, v.rowCount) || v.grandTotalCells == [] then Err(Timeout)
    else Ok(CartData(v.rowCount, RowsUpTo(v, v.rowCount), TotalPrice(v).value))
  }

  /** `getCartData`: reads row after row into a list, then the grand total. */
  method GetCartData(v: CartView) returns (r: Result<CartData>)
    ensures r == CartSnapshot(v)
  {
    var itemCount := v.rowCount;
    var products: seq<CartRow> := [];
    for i := 0 to itemCount
      invariant RowsReadable(v, i)
      invariant products == RowsUpTo(v, i)
    {
      var nameText := NthText(v.nameCells, i);
      if nameText.Err? {
        return Err(nameText.failure);
      }
      var name := NameAt(v, i);
      var price := ProductPrice(v, i);
      if price.Err? {
        return Err(price.failure);
      }
      var quantity := ProductQuantity(v, i);
      if quantity.Err? {
        return Err(quantity.failure);
      }
      var total := ProductTotal(v, i);
      if total.Err? {
        return Err(total.failure);
      }
      products := products + [CartRow(name, price.value, quantity.value, total.value)];
      assert products == RowsUpTo(v, i + 1);
    }
    var totalPrice := TotalPrice(v);
    if totalPrice.Err? {
      return Err(totalPrice.failure);
    }
    r := Ok(CartData(itemCount, products, totalPrice.value));
  }

  /** The lines a caller reads off a snapshot: each product's parsed price and
      its quantity, in order. */
  function SnapshotLines(products: seq<CartRow>): (lines: seq<Line>)
    ensures |lines| == |products|
    ensures forall i :: 0 <= i < |products| ==>
      lines[i] == Line(ParsePriceToNumber(products[i].price), products[i].quantity)
  {
    seq(|products|, i requires 0 <= i < |products| => Line(ParsePriceToNumber(products[i].price), products[i].quantity))
  }

  /** The snapshot surfaces everything the total check uses: summing its products
      gives the expected total, and comparing that with its grand total decides
      exactly as `verifyTotalPriceCalculation` does. */
  lemma SnapshotAgreesWithTotalCheck(v: CartView)
    requires CartSnapshot(v).Ok?
    ensures Total(SnapshotLines(CartSnapshot(v).value.products)) == ExpectedTotal(v, v.rowCount)
    ensures TotalCheck(v) == Pass <==>
      Total(SnapshotLines(CartSnapshot(v).value.products)) == Some(ParsePriceToNumber(CartSnapshot(v).value.totalPrice))
  {
    RowsTotal(v, v.rowCount);
  }

  lemma RowsTotal(v: CartView, n: nat)
    requires RowsReadable(v, n)
    ensures Total(SnapshotLines(RowsUpTo(v, n))) == ExpectedTotal(v, n)
  {
    assert SnapshotLines(RowsUpTo(v, n)) == LinesUpTo(v, n) by {
      forall i | 0 <= i < n ensures SnapshotLines(RowsUpTo(v, n))[i] == LinesUpTo(v, n)[i] {
        assert RowsUpTo(v, n)[i] == RowAt(v, i);
      }
    }
  }
}
