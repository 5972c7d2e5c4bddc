# Page-object model of an e-commerce UI test suite

This project models the page objects of a Playwright test suite for an
e-commerce storefront. It covers the cart, products, checkout and login pages,
plus the user generator used by the sign-up scenarios. From each page object it
keeps the logic that turns what the page shows into values and verdicts:

- price parsing;
- the cart's total-price check;
- row lookups;
- the relevance filter over search results;
- address and order-review reads;
- user-name extraction after login;
- the synthetic user record.

The browser is not modelled. Each page is a *view* datatype holding what that
page's locators return at the moment a page object reads them:

- every element's `textContent`, with `None` for a null text;
- the number of product rows;
- whether a section is visible.

Playwright's failure modes become values. Reading `nth(i)` or `last()` of an
element that is not there is a `Timeout`. A failed `expect` is an
`AssertionFailed`. An assertion helper returns a `Check`, either `Pass` or
`Fail`.

JavaScript built-ins are written out explicitly (modules `Text` and `Decimal`):

- `trim` (ASCII white space);
- `toLowerCase` (ASCII);
- `includes`;
- `String.prototype.replace` with a string pattern and the empty replacement;
- the digit filter `replace(/[^0-9]/g, '')`;
- `parseInt`: leading white space, sign, `0x` prefix, longest digit prefix, and NaN as `None`;
- the JavaScript `||` fallback for empty texts.

The two loops of the cart page are methods:

- `VerifyTotalPriceCalculation` is proved equal to the function `TotalCheck`.
- `GetCartData` is proved equal to the function `CartSnapshot`.

The properties the suite relies on are then proved about those functions. All
the other page operations are functions, since their bodies are expressions
over the read texts.

Modules:

- `Outcomes`: Option, Result, Failure, Check.
- `Text`: trimming, searching, replacing, lower-casing, subsequences.
- `Decimal`: digits, decimal printing, `parseInt`.
- `Dom`: the `textContent` and `allTextContents` helpers.
- `CartPage`, `ProductsPage`, `CheckoutPage`, `LoginPage`, `TestDataGenerator`: one module per source file.

## Model

| member | source | states |
|---|---|---|
| CartPage.ParsePriceToNumber | pages/CartPage.ts:233-236 | the parsed price is the decimal value of the digit characters of the text, 0 when there are none |
| CartPage.ParsePriceWithoutDigits | pages/CartPage.ts:233-236 | a text without digits (NaN from parseInt) parses to 0 |
| CartPage.ParsePriceRoundTrip | pages/CartPage.ts:230-236 | any digit-free currency label followed by the decimal form of n parses back to n |
| CartPage.ParsePriceIgnoresSeparator | pages/CartPage.ts:233-236 | inserting a non-digit character (a thousands comma) does not change the parsed price |
| CartPage.ParsePriceIgnoresPadding | pages/CartPage.ts:233-236 | white space around a price text does not change the parsed price |
| CartPage.ParsePriceOfPlainPrice | pages/CartPage.ts:230-236 | "Rs. 500" parses to 500, the documented example |
| CartPage.ParsePriceOfSeparatedPrice | pages/CartPage.ts:233-236 | "Rs. 1,300" parses to 1300 |
| Text.Trim | pages/CartPage.ts:144 | `trim()` leaves no white space at either end and never lengthens the text; with TrimIsInfix and TrimDropsOnlySpace this fixes the result |
| Text.TrimIsInfix | pages/CartPage.ts:144 | the trimmed text is the infix of the text that starts after its leading white space |
| Text.TrimDropsOnlySpace | pages/CartPage.ts:144 | everything `trim()` removes on either side of that infix is white space |
| Text.TrimOfTrimmed | pages/CartPage.ts:144 | a text without white space at either end is unchanged by `trim()` |
| Text.TrimOfPadded | pages/CartPage.ts:144 | a non-empty trimmed text padded with white space on both sides trims back to itself |
| Text.TrimAll | pages/CartPage.ts:89 | `map(name => name.trim())` gives one trimmed text per text, in order |
| Text.Contains | pages/CartPage.ts:133 | `includes` finds the text at some position, so a found text is never longer than the one searched |
| Text.ContainsInfix | pages/CartPage.ts:133 | a text placed between any two strings is found by `includes` |
| Text.ContainsEmpty | pages/CartPage.ts:133 | every text includes the empty string |
| Text.IndexOf | pages/LoginPage.ts:76 | the first position where the pattern occurs, present iff the text includes the pattern |
| Text.LowerChar | pages/ProductsPage.ts:205 | `toLowerCase` maps A-Z to a-z and leaves every other character unchanged |
| Text.ToLower | pages/ProductsPage.ts:205 | `toLowerCase()` keeps the length and lower-cases each character |
| Text.ToLowerOfConcat | pages/ProductsPage.ts:205 | lower-casing a concatenation lower-cases each part |
| Text.ToLowerIdempotent | pages/ProductsPage.ts:205 | lower-casing twice is lower-casing once |
| Text.ContainsIgnoringCase | pages/ProductsPage.ts:205 | `name.toLowerCase().includes(term.toLowerCase())` matches only a term no longer than the name |
| Text.ContainsIgnoringCaseOfInfix | pages/ProductsPage.ts:205 | a name containing the term verbatim matches it |
| Text.ContainsIgnoringCaseOfLowered | pages/ProductsPage.ts:205 | lower-casing the name first matches the same terms |
| Decimal.DecimalString | utils/testDataGenerator.ts:10-11 | `${n}` of a natural number is a non-empty digit string without a leading zero whose decimal value is n |
| Decimal.DecimalStringInjective | utils/testDataGenerator.ts:10-11 | different numbers print differently |
| Dom.TextOr | pages/CartPage.ts:97 | the JavaScript or-fallback `text or fallback`: a non-empty text is kept, and a null or empty one gives the fallback |
| Dom.AllTextContents | pages/CartPage.ts:88 | `allTextContents()` gives one string per matched element, in order, "" for a null text |
| Dom.NthText | pages/CartPage.ts:97 | `nth(i).textContent()` reads element i iff it exists, and times out otherwise |
| Dom.LastText | pages/CartPage.ts:143 | `last().textContent()` reads the last matched element iff one exists, and times out otherwise |
| Decimal.Digits | pages/CartPage.ts:234 | `replace(/[^0-9]/g, '')` keeps only digit characters and never lengthens the text |
| Decimal.DigitsOfNoDigits | pages/CartPage.ts:234 | a text without digits keeps nothing |
| Decimal.DigitsOfAllDigits | pages/CartPage.ts:234 | a text of digits is kept whole |
| Decimal.DigitsOfConcat | pages/CartPage.ts:234 | the digits of a concatenation are the digits of each part, in order |
| Decimal.ParseInt | pages/CartPage.ts:235 | parseInt of a non-empty string of decimal digits is its decimal value; a string without any digit is NaN |
| Decimal.ParseIntOfDecimalString | pages/CartPage.ts:106 | parseInt reads back the decimal form of any natural number |
| CartPage.ProductPrice | pages/CartPage.ts:96-98 | a row's price text is read iff its cell exists (else Timeout), with "" for a null or empty text |
| CartPage.ProductQuantity | pages/CartPage.ts:104-107 | a row's quantity is read iff its cell exists (else Timeout); it is parseInt of the trimmed text, with "0" for a null or empty text |
| CartPage.QuantityOfDecimal | pages/CartPage.ts:104-107 | a quantity shown in decimal reads as that number; a null or empty cell reads as 0 |
| CartPage.ProductTotal | pages/CartPage.ts:113-115 | a row's line total is read iff its cell exists (else Timeout), with "" for a null text |
| CartPage.TotalPrice | pages/CartPage.ts:142-145 | the grand total is the text of the last cell matching the total locator, trimmed, "" for a null text; Timeout when no cell matches |
| CartPage.ProductNames | pages/CartPage.ts:84-90 | no product row gives no names; otherwise every name cell's text, trimmed, in order |
| CartPage.IsCartEmpty | pages/CartPage.ts:157-160 | the cart is empty iff it has no product row |
| CartPage.FindIndexFrom | pages/CartPage.ts:133 | the first index from `from` whose name contains the text, or -1 iff none does |
| CartPage.FindIndex | pages/CartPage.ts:133 | `findIndex`: the first matching index, -1 iff no name matches |
| CartPage.RemoveProductByName | pages/CartPage.ts:131-137 | the clicked row is the first whose trimmed name contains the text; nothing is clicked iff no name does |
| CartPage.VerifyProductInCart | pages/CartPage.ts:190-194 | passes iff some trimmed product name contains the text, else fails its assertion |
| CartPage.InCartIffRemovable | pages/CartPage.ts:190-194 | a product passes the cart check exactly when removal by that name would click a row |
| CartPage.VerifyEmptyCartMessage | pages/CartPage.ts:213-221 | passes iff the cart has no product row |
| CartPage.LineAmount | pages/CartPage.ts:251 | price times quantity, NaN iff the quantity is NaN |
| CartPage.AddAmount | pages/CartPage.ts:251 | the sum of two amounts, NaN iff either is NaN |
| CartPage.TotalNaN | pages/CartPage.ts:244-252 | the running sum is NaN exactly when some quantity is NaN |
| CartPage.TotalOfLonger | pages/CartPage.ts:246-252 | one more loop iteration adds that row's amount to the sum so far |
| CartPage.ExpectedTotalStep | pages/CartPage.ts:246-252 | reading row n adds its price times quantity to the expected total |
| CartPage.ExpectedTotalNaN | pages/CartPage.ts:244-252 | the expected total is NaN iff some row's quantity is NaN |
| CartPage.TotalCheck | pages/CartPage.ts:242-258 | times out iff a row's price or quantity cell, or the grand total, is missing; passes iff none is missing and the accumulated sum equals the parsed grand total |
| CartPage.TotalCheckNeedsNumericQuantities | pages/CartPage.ts:248-257 | a passing check implies every quantity parsed as a number, since the grand total is never NaN |
| CartPage.VerifyTotalPriceCalculation | pages/CartPage.ts:242-258 | the loop's verdict is the one TotalCheck specifies, on every input, via the invariant that the running sum is the expected total of the rows read so far |
| CartPage.EmptyCartTotal | pages/CartPage.ts:242-258 | with no product row the check passes iff the grand total parses to 0 |
| CartPage.TotalCheckWithoutGrandTotalCell | pages/CartPage.ts:45-52 | when the total locator matches only the line-total cells, the check compares the sum with the last row's line total |
| CartPage.LineOfDisplayed | pages/CartPage.ts:247-249 | a row showing label + decimal price and a decimal quantity reads back as those numbers |
| CartPage.TotalOfNumbers | pages/CartPage.ts:244-252 | lines with known numbers sum to the sum of price times quantity |
| CartPage.TotalCheckOfDisplayedCart | pages/CartPage.ts:238-258 | on a cart displaying numbers after digit-free labels (the grand total may carry its own label), the check passes iff the displayed grand total is the sum of unit price times quantity, otherwise it fails its assertion |
| CartPage.TotalCheckScenario | tests/ui/cart/viewCart.spec.ts:36-50 | an instance of the recomputation the test checks: rows "Rs. 500" x 2 and "Rs. 300" x 1 pass under grand total 1300 and fail under any other amount |
| CartPage.NameAt | pages/CartPage.ts:269 | a snapshot row name is the trimmed text of its name cell, "" for a null text |
| CartPage.SnapshotNameIsProductName | pages/CartPage.ts:269 | on a cart with rows, a snapshot row's name is the name getProductNames returns for that row |
| CartPage.RowsUpTo | pages/CartPage.ts:267-274 | the first n snapshot rows, row i built from cell i |
| CartPage.CartSnapshot | pages/CartPage.ts:263-281 | Ok iff every row's four cells and the grand total exist (else Timeout); then one product per row in index order, the item count, and the getTotalPrice text |
| CartPage.GetCartData | pages/CartPage.ts:263-281 | the loop builds exactly the snapshot CartSnapshot specifies, via the invariant that the list holds the rows read so far |
| CartPage.SnapshotLines | tests/ui/cart/viewCart.spec.ts:42-46 | each snapshot product becomes its parsed price and quantity, in order |
| CartPage.SnapshotAgreesWithTotalCheck | tests/ui/cart/viewCart.spec.ts:36-50 | the test's recomputation from the snapshot gives the same sum and the same verdict as verifyTotalPriceCalculation |
| CartPage.RowsTotal | tests/ui/cart/viewCart.spec.ts:41-46 | summing the first n snapshot rows gives the expected total of the first n rows |
| ProductsPage.AllProductNames | pages/ProductsPage.ts:88-91 | every product name text, untrimmed, in page order, "" for null |
| ProductsPage.Relevant | pages/ProductsPage.ts:204-206 | every kept name contains the term, ignoring case |
| ProductsPage.RelevantIsSubsequence | pages/ProductsPage.ts:204-206 | the kept names are taken from the listing in their order |
| ProductsPage.RelevantCounts | pages/ProductsPage.ts:204-206 | a matching name is kept as many times as it is listed, and no other name is kept |
| ProductsPage.RelevantOfConcat | pages/ProductsPage.ts:204-206 | filtering a listing in two parts gives the two filtered parts, one after the other |
| ProductsPage.RelevantOfSingle | pages/ProductsPage.ts:204-206 | a single name is kept iff it contains the term, ignoring case |
| ProductsPage.RelevantComplete | pages/ProductsPage.ts:204-206 | every name containing the term, ignoring case, is kept |
| ProductsPage.RelevantIff | pages/ProductsPage.ts:204-206 | a listed name is kept iff it contains the term, ignoring case |
| ProductsPage.RelevantOfEmptyTerm | pages/ProductsPage.ts:204-206 | an empty search term keeps every name |
| ProductsPage.RelevantIdempotent | pages/ProductsPage.ts:204-206 | filtering the result again with the same term changes nothing |
| ProductsPage.GetRelevantProducts | pages/ProductsPage.ts:201-209 | returns the raw listing and, as a subsequence of it, its case-insensitively matching names, each as many times as listed |
| ProductsPage.BrandSelector | pages/ProductsPage.ts:162-164 | the selector is the fixed start, the brand name verbatim, and the fixed end |
| ProductsPage.BrandSelectorInjective | pages/ProductsPage.ts:162-164 | different brands give different selectors |
| CheckoutPage.DropEmpty | pages/CheckoutPage.ts:83 | the filter keeps a subsequence of non-empty strings |
| CheckoutPage.DropEmptyComplete | pages/CheckoutPage.ts:83 | every non-empty string is kept |
| CheckoutPage.DropEmptyIsEmpty | pages/CheckoutPage.ts:83 | nothing is left iff every string is empty |
| CheckoutPage.DropEmptyCounts | pages/CheckoutPage.ts:83 | every non-empty string is kept as many times as it occurs, and the empty string never |
| CheckoutPage.AddressLines | pages/CheckoutPage.ts:81-92 | the address lines are a subsequence of the trimmed texts, each non-empty and trimmed |
| CheckoutPage.AddressLinesBound | pages/CheckoutPage.ts:82-83 | at most as many lines as texts read |
| CheckoutPage.AddressLinesComplete | pages/CheckoutPage.ts:82-83 | every text that is not blank contributes its trimmed form |
| CheckoutPage.AddressLinesCounts | pages/CheckoutPage.ts:82-83 | each non-empty trimmed text gives one line per occurrence, and nothing else gives a line |
| CheckoutPage.AddressLinesEmpty | pages/CheckoutPage.ts:82-83 | there is no line iff every text is blank |
| CheckoutPage.GetDeliveryAddress | pages/CheckoutPage.ts:81-84 | the delivery lines: a subsequence of the trimmed texts, each non-empty, every non-empty trimmed text kept once per occurrence |
| CheckoutPage.GetBillingAddress | pages/CheckoutPage.ts:89-92 | the billing lines: a subsequence of the trimmed texts, each non-empty, every non-empty trimmed text kept once per occurrence |
| CheckoutPage.AddressesAgree | pages/CheckoutPage.ts:81-92 | both addresses are read by one rule: identical texts give identical lines |
| CheckoutPage.VerifyDeliveryAddressVisible | pages/CheckoutPage.ts:121-126 | passes iff the section is visible and some line is not blank |
| CheckoutPage.VerifyBillingAddressVisible | pages/CheckoutPage.ts:131-136 | passes iff the section is visible and some line is not blank |
| CheckoutPage.GetOrderItemNames | pages/CheckoutPage.ts:97-100 | one trimmed name per product element, in order |
| CheckoutPage.GetOrderItemCount | pages/CheckoutPage.ts:105-107 | the count equals the number of names getOrderItemNames returns |
| CheckoutPage.VerifyOrderReviewItems | pages/CheckoutPage.ts:142-151 | passes iff the review is visible, holds at least one item, and, when a count is expected, exactly that many |
| CheckoutPage.EmptyReviewFails | pages/CheckoutPage.ts:142-151 | an empty review fails whatever count is expected |
| CheckoutPage.VerifyProductInOrder | pages/CheckoutPage.ts:172-176 | passes iff some trimmed order name contains the product name |
| CheckoutPage.ProductInOrderByExactName | tests/ui/cart/checkout.spec.ts:78-85 | a product listed under exactly its name is found |
| CheckoutPage.GetCheckoutData | pages/CheckoutPage.ts:181-188 | the four reads collected, with the item count equal to the number of order items |
| LoginPage.GetErrorMessage | pages/LoginPage.ts:60-62 | the error text, "" for a null text |
| LoginPage.GetLoggedInUsername | pages/LoginPage.ts:74-77 | the user name is the header text with the first occurrence of the label removed, trimmed; the trimmed text when the label is absent; "" for a null text |
| Text.RemoveFirst | pages/LoginPage.ts:76 | `replace(pattern, '')` with a string pattern removes exactly the first occurrence and leaves a text without the pattern unchanged (an empty replacement has no `$` patterns to expand) |
| Text.RemoveFirstAtStart | pages/LoginPage.ts:76 | removing a pattern from a text that starts with it leaves exactly the rest, even when the rest contains the pattern again |
| LoginPage.AfterLabel | pages/LoginPage.ts:76 | removing a leading marker and trimming gives back a trimmed remainder |
| LoginPage.UsernameOfLabelled | pages/LoginPage.ts:74-77 | round trip: "Logged in as " + u gives back u for any trimmed u |
| LoginPage.UsernameRemovesFirstLabelOnly | pages/LoginPage.ts:76 | only the first label is removed: a name starting with the label keeps it |
| LoginPage.UsernameOfPadded | pages/LoginPage.ts:74-77 | white space around the header text does not reach the name |
| LoginPage.VerifyErrorMessage | pages/LoginPage.ts:90-94 | passes iff the error is visible and its text contains the expected text |
| LoginPage.VerifySuccessfulLogin | pages/LoginPage.ts:100-107 | passes iff the header is visible and, for a non-empty expected name, the extracted name equals it |
| LoginPage.SuccessfulLoginOfLabelled | pages/LoginPage.ts:100-107 | a header showing the label and a name passes for exactly that name |
| TestDataGenerator.RandomComponent | utils/testDataGenerator.ts:6 | Math.floor(random * 1000) is the integer from 0 to 999 whose thousandth part the draw falls into |
| TestDataGenerator.GenerateTestUser | utils/testDataGenerator.ts:4-39 | the name carries the timestamp; the e-mail is the timestamp and a component of at most 999 between fixed parts; alias fields agree; the mobile number is "+" followed by the mobile |
| TestDataGenerator.EmailParts | utils/testDataGenerator.ts:11 | the address splits back into start, timestamp digits, random digits and domain |
| TestDataGenerator.EmailInjectiveInRandomComponent | utils/testDataGenerator.ts:11 | for one timestamp, equal addresses mean equal random components |
| TestDataGenerator.EmailInjectiveForEqualLengths | utils/testDataGenerator.ts:11 | for timestamps with the same number of digits, equal addresses mean equal timestamps and random components |
| TestDataGenerator.EmailsCollideAcrossLengths | utils/testDataGenerator.ts:11 | timestamps of different lengths can collide: (1, 23) and (12, 3) give the same address |
| TestDataGenerator.NameInjective | utils/testDataGenerator.ts:10 | equal names mean equal timestamps |
| TestDataGenerator.OnlyNameAndEmailVary | utils/testDataGenerator.ts:12-38 | every field except the name and the e-mail is the same for all inputs |
| TestDataGenerator.BirthMonthIsNamedMonth | utils/testDataGenerator.ts:24-35 | the API month name is the name of the month the UI month number denotes |

## Left out

- Browser actions (`goto`, `click`, `fill`, `hover`, `waitForTimeout`, navigation) change only the browser. They are not modelled; each view is the state a read observes.
- `removeProduct` is modelled only through the row index `RemoveProductByName` would click. The click and the wait are browser actions.
- These assertions are not modelled because they carry no logic beyond a URL match, a visibility or editability flag, and the row-count test that `IsCartEmpty` models (`verifyCartPageLoaded` checks the table only when the cart is not empty; `verifyProductDetailsVisible` also asserts at least one row): `verifyCartPageLoaded`, `verifyProductDetailsVisible`, `verifyCheckoutButtonVisible`, `isEmptyCartMessageVisible`, `verifyCheckoutPageLoaded`, `verifyCommentBoxVisible`, `verifyPlaceOrderButtonVisible`, `isLoggedIn`, `isLoginFormVisible`, `verifyLoginFormVisible`.
- The products page's navigation and search actions (`searchProduct`, `clickCategory`) and its title checks (`validateSearchResultsPage`, `getSearchResultsTitle`) are browser interaction. Only the selector `clickBrand` builds is modelled.
- `BasePage`, the other page objects, the API helper, the fixtures and the test files are not part of this model. Two scenarios from the tests are stated as lemmas.
- The grand-total locator `#total_amount, .cart_total_price` also matches every line-total cell. The view keeps the cells it matches (`grandTotalCells`) separate from the line-total cells and does not tie the two. `TotalCheckOfDisplayedCart` and `TotalCheckScenario` speak of the last matched cell, which is the grand total only on a page that ends with a separate `#total_amount` cell. `TotalCheckWithoutGrandTotalCell` covers the page without one.
- `getCartItemCount` is the `rowCount` field of the view. A count that throws is already read as 0 there.
- Playwright's strict mode, which fails a single-element read when a locator matches several elements, is not modelled.
- A `toBeVisible` that fails after its timeout is modelled as `AssertionFailed`, like any other failed expectation.
- `trim` and `toLowerCase` are modelled on ASCII: six white-space characters and the letters A-Z. Unicode white space and case mapping are not modelled.
- JavaScript numbers are modelled as unbounded integers. Prices are natural numbers, and a quantity is an integer or NaN (`None`).
  - Infinity and the loss of precision above 2^53 are not modelled.
  - The expected item count of `verifyOrderReviewItems` is an integer, so a fractional or NaN argument is not modelled.
- `Date.now()` and `Math.random()` become parameters of `GenerateTestUser`: a natural-number timestamp and a real in [0, 1).
- GenerateTestUser: its ensures gives the e-mail as an address for some random component of at most 999, not the exact floor value. That exact value is stated by `RandomComponent` and `TestUserFor`.
- `TestUserFor` gives the `as const` on the gender no separate type. The field is an ordinary string.
- `LoginView` assumes both login-page elements are present when their texts are read. A missing element would time out, and that case is not modelled.
