# Stock management front end: product search and product creation

This project models two React components of a small stock-management web
front end, together with the JavaScript built-ins they rely on.

- **The product search panel** (`SearchBar`, `src/app/compo/ProductSearch.js`).
  A query box and a category select control a list of product records
  fetched from the catalogue backend (`/api/search`). The list is shown only
  while the trimmed query is non-empty, filtered by the category and the
  query. The quantity of every shown product appears as a number or as the
  out-of-stock label. One shared quantity box and a mode checkbox drive the
  "Purchase-" and "Add Stock" buttons of every row. A click changes the record
  in place at once, and then posts `{action, slug, value, qunti}` to
  `/api/action`.
- **The add-product page** (`AddProduct`, `src/app/rout/AddProduct/page.js`).
  A form keeps its field texts in a map from input name to text. Submitting
  posts the whole map to `/api/product` and disables the button while the
  request is out. It then shows a toast for an ok or a failed status (a thrown
  error is only logged to the console), enables the button again and empties
  the form.

Each component is a Dafny `class` that holds its state variables. Each event
handler is a `method` that updates those fields. The handler's outside
effects (toasts, the confirm dialog, requests, console errors) are returned as
a sequence of `Effects.Event` values, in the order the component emits them.
The answers from outside (the response of a request, the user's reply to
`window.confirm`) are parameters of the handler.

The core of the stock handler is the function `StockAdjustment`. It gives the
new quantity, whether the request is sent, and the events, for any parsed
amount, operation, current quantity, confirmation and request outcome. Its
properties are lemmas. The method `HandlePurchaseAddStock` is proved to do
exactly what `StockAdjustment` says.

The built-ins are modelled with independent characterisations:

- `trim` and `parseInt(s, 10)` use the ECMAScript white-space set (ECMA-262,
  sections 12.2 and 12.3, and section 19.2.5 for `parseInt`).
- `toLowerCase` is limited to ASCII letters.
- `includes` means "occurs as a contiguous piece".
- The decimal text of an integer Number is what `toString()` and template
  literals produce for every integer whose magnitude is below 10^21.
- `Array.prototype.filter` comes with the positions of the kept elements.

The source has two quirks, and both are modelled as written:

- **The wrong row.** The button of row `k` of the *filtered* list passes `k`
  to the handler, and the handler uses it as an index into the *unfiltered*
  list. `ClickedRowIsChangedRow` proves that the changed product is the
  clicked one exactly when no product up to that row was filtered out.
  `Scenarios.WrongRow` gives a concrete case.
- **No rollback.** The handler changes the record inside a shallow copy of
  the list. That record is shared with the list as rendered. The "revert"
  after a failed request puts back that rendered list, which already holds the
  changed record, so the change stays. `FailedRequestKeepsChange` and the
  contract of `HandlePurchaseAddStock` state this.

On these points the model follows the code exactly, including where the outcome may look unintended:

- When a search request fails, the code only reports the error and keeps the
  previous list. It does not clear it (`FetchData`).
- `parseInt` reads an optional sign, so a negative amount such as `"-10"`
  passes both checks. A negative purchase raises the stock. A negative
  add-stock can take the quantity below zero. Nothing in the code prevents a
  negative quantity, and `Scenarios.NegativeAmounts` shows both cases.
- The request body carries the raw text of the quantity box (`value`) and the
  quantity shown in the row before the change (`qunti`). It does not carry
  the parsed amount.

## Model

| member | source | states |
|---|---|---|
| JsStrings.LeadingRun | src/app/compo/ProductSearch.js:17 | The length of the leading run of characters that satisfy the predicate: every character inside it satisfies the predicate, and the first character after it does not. |
| JsStrings.TrailingRun | src/app/compo/ProductSearch.js:17 | The same for the trailing run of characters. |
| JsStrings.LeadingRunIs | src/app/compo/ProductSearch.js:40 | The two defining properties of a run fix its length. |
| JsStrings.TrimStart | src/app/compo/ProductSearch.js:40 | The first step of `parseInt` (and of `trim`): the input after its leading white space. It has no contract of its own; `TrimStartRemovesLeadingWhiteSpace` and `TrimStartSkipsWhiteSpace` state what it does. |
| JsStrings.TrimStartRemovesLeadingWhiteSpace | src/app/compo/ProductSearch.js:40 | The result is a suffix of the input. Everything dropped is white space, and the result does not start with white space. |
| JsStrings.IsWhiteSpace | src/app/compo/ProductSearch.js:17 | The ECMAScript white-space and line-terminator set that `trim` and `parseInt` skip. It has no contract of its own; `TrimIsEmptyIffBlank`, `TrimStartRemovesLeadingWhiteSpace` and the `Trim` contract state its use. |
| JsStrings.Trim | src/app/compo/ProductSearch.js:17 | `trim()` gives a contiguous piece of the input that neither starts nor ends with white space, and everything cut off before and after it is white space. |
| JsStrings.TrimIsEmptyIffBlank | src/app/compo/ProductSearch.js:17-18 | A query trims to "" exactly when all its characters are white space, in both directions. This decides whether a search is sent and whether rows are shown. |
| JsStrings.LowerChar | src/app/compo/ProductSearch.js:102-106 | The ASCII lower case of one character. It has no contract of its own; the contract of `ToLowerCase` is stated in it, and `ToLowerCaseKeepsNonLetters` uses it. |
| JsStrings.ToLowerCase | src/app/compo/ProductSearch.js:102-106 | `toLowerCase()` keeps the length and lowers each character in place, ASCII letters only. |
| JsStrings.ToLowerCaseKeepsNonLetters | src/app/compo/ProductSearch.js:102 | Text without upper-case letters is its own lower case. |
| JsStrings.OccursShift | src/app/compo/ProductSearch.js:104-106 | An occurrence in the tail of a string is an occurrence in the string, one position later. |
| JsStrings.Includes | src/app/compo/ProductSearch.js:104-106 | `includes(t)` is true exactly when `t` occurs as a contiguous piece of the string. |
| JsNumbers.DigitsValue | src/app/compo/ProductSearch.js:40 | The value of a run of decimal digits, which is what `parseInt` returns for it. It has no contract of its own; `ParseIntDigits`, `DigitsValueOfNaturalToString` and the contract of `NumberToString` state it. |
| JsNumbers.DigitChar | src/app/compo/ProductSearch.js:57 | The digit character of a value below 10 reads back as that value. |
| JsNumbers.NaturalToString | src/app/compo/ProductSearch.js:106 | The decimal text of a natural number is non-empty and all digits. It starts with '0' only when it is exactly "0", for the number 0. |
| JsNumbers.NumberToString | src/app/compo/ProductSearch.js:106 | The decimal text of an integer Number starts with '-' exactly when the number is negative. The rest is a non-empty run of digits whose value is the magnitude, without a leading zero except for "0". It never starts with white space. |
| JsNumbers.DigitsValueOfNaturalToString | src/app/compo/ProductSearch.js:40 | Reading back the digits of a natural number gives that number. |
| JsNumbers.TrimStartSkipsWhiteSpace | src/app/compo/ProductSearch.js:40 | `parseInt` skips exactly the leading white space. |
| JsNumbers.ParseInt | src/app/compo/ProductSearch.js:40 | `parseInt(s, 10)`: the signed-integer step applied after the leading white space. It has no contract of its own; `ParseIntDigits`, `ParseIntNoDigits`, `ParseIntReadsNumber` and `ParseIntOfNumberToString` state what it returns. |
| JsNumbers.ParseSigned | src/app/compo/ProductSearch.js:40 | An optional '+' or '-', then the longest digit run, NaN if that run is empty. It has no contract of its own; `ParseSignedDigits` and `ParseSignedNoDigits` state what it returns. |
| JsNumbers.DigitRun | src/app/compo/ProductSearch.js:40 | A digit run followed by anything not starting with a digit is read exactly up to its end. |
| JsNumbers.UnsignedDigits | src/app/compo/ProductSearch.js:40 | With no sign, a digit run is read as its value. |
| JsNumbers.SignedDigits | src/app/compo/ProductSearch.js:40 | After '+' or '-', a digit run is read as its value with that sign. |
| JsNumbers.ParseSignedDigits | src/app/compo/ProductSearch.js:40 | An optional sign, then a non-empty digit run, then a non-digit, is read as the signed value of the run. |
| JsNumbers.ParseIntDigits | src/app/compo/ProductSearch.js:40 | `parseInt(w + sign + ds + rest, 10)` is the signed value of `ds`. This holds for any white space `w`, no sign or '+' or '-', any non-empty digit run `ds` (leading zeros included), and any `rest` that does not start with a digit. |
| JsNumbers.ParseIntReadsNumber | src/app/compo/ProductSearch.js:40 | `parseInt(w + text(n) + rest, 10)` is n for any white space w and any rest that does not start with a digit. |
| JsNumbers.ParseIntOfNumberToString | src/app/compo/ProductSearch.js:40 | `parseInt` inverts the decimal text of every integer. |
| JsNumbers.ParseIntNoDigits | src/app/compo/ProductSearch.js:40-44 | Text with no digit after the white space and the optional sign is NaN, so the handler returns doing nothing. |
| JsNumbers.ParseSignedNoDigits | src/app/compo/ProductSearch.js:40-44 | The signed-integer step is NaN when no digit follows the optional sign. |
| JsArrays.KeptPositions | src/app/compo/ProductSearch.js:150 | The kept positions are strictly increasing, in range, and accepted by the callback, and every accepted position is among them. |
| JsArrays.Filter | src/app/compo/ProductSearch.js:150 | `filter(keep)` is as long as the list of kept positions, and its element k is the element at kept position k. |
| JsArrays.FilterMembers | src/app/compo/ProductSearch.js:150 | The filtered array holds exactly the accepted elements of the array. |
| JsArrays.IncreasingAtLeastIndex | src/app/compo/ProductSearch.js:150 | Element k of the kept positions is at least k. |
| JsArrays.IncreasingGap | src/app/compo/ProductSearch.js:150 | Between kept entries j and k the positions grow by at least k - j. |
| JsArrays.KeptPrefix | src/app/compo/ProductSearch.js:150 | When the first k+1 elements are all kept, they are the first k+1 kept positions. |
| JsArrays.FilteredIndexIsOriginalIndex | src/app/compo/ProductSearch.js:150 | In a list of distinct elements, the filtered element k is the original element k exactly when none of the first k+1 elements was dropped. |
| ProductSearch.PurchasedMessage | src/app/compo/ProductSearch.js:57 | The success notice of a purchase. It has no contract of its own; `PurchasedMessageShowsAmount` states what it shows. |
| ProductSearch.AddStockPrompt | src/app/compo/ProductSearch.js:60 | The text of the confirm dialog. It has no contract of its own; `AddStockPromptShowsAmount` states what it shows. |
| ProductSearch.NumberAfterPrefix | src/app/compo/ProductSearch.js:57-60 | In text made of a prefix, a number's text and a rest that does not start with a digit, what follows the prefix parses back as the number. |
| ProductSearch.PurchasedMessageShowsAmount | src/app/compo/ProductSearch.js:57 | The purchase notice starts with "Purchased ", and the number after it reads back as the amount purchased. |
| ProductSearch.AddStockPromptShowsAmount | src/app/compo/ProductSearch.js:60 | The confirm prompt starts with "Are you sure you want to add ", and the number after it reads back as the amount to add. |
| ProductSearch.IsCategoryValue | src/app/compo/ProductSearch.js:119-121 | A category is one of the option values exactly when it is "All", "Category1" or "Category2". |
| ProductSearch.FilterItems | src/app/compo/ProductSearch.js:101-109 | A product is kept exactly when its category test passes (category "All", or the lower-cased category value occurs in the lower-cased slug) and the lower-cased query occurs in the lower-cased slug or in the price's decimal text. |
| ProductSearch.Matches | src/app/compo/ProductSearch.js:150 | `filterItems` closed over the current query and category, as handed to `filter`. It has no contract of its own; `Rows` and `ClickedRowIsChangedRow` state what filtering with it gives. |
| ProductSearch.CategoryAllKeepsSearchMatches | src/app/compo/ProductSearch.js:103-104 | Under "All" only the search test remains. |
| ProductSearch.ClickedRowIsChangedRow | src/app/compo/ProductSearch.js:150-191 | The button of rendered row k changes the product it shows exactly when all products up to position k pass the filter (the wrong-row quirk). |
| ProductSearch.QuantityLabel | src/app/compo/ProductSearch.js:157 | The quantity cell shows the out-of-stock label exactly when the quantity is 0 or less; otherwise its text parses back to the quantity. |
| ProductSearch.ActionFailureEvents | src/app/compo/ProductSearch.js:88-91 | The `.catch` of the stock request: the console line "Error updating data:", then the error toast, and nothing when the request succeeds. It has no contract of its own; `StockStepSendsOnce` states it, and `CommitStockChange` emits it. |
| ProductSearch.RequestEvents | src/app/compo/ProductSearch.js:71-91 | The POST to `/api/action`, followed by the failure events of its `.catch`. It has no contract of its own; the contract of `CommitStockChange` is stated in it. |
| ProductSearch.StockAdjustment | src/app/compo/ProductSearch.js:38-95 | The reference model of one stock adjustment: the new quantity, whether the request is sent, and the events, for a given parsed amount, operation, quantity, confirmation and request outcome. It has no ensures of its own. Its properties are the four lemmas `StockStepSendsOnce`, `PurchaseStep`, `AddStockStep` and `FailedRequestKeepsChange`, and `HandlePurchaseAddStock` is proved to follow it. |
| ProductSearch.StockStepSendsOnce | src/app/compo/ProductSearch.js:38-95 | The request is sent exactly when the amount parses, a purchase does not exceed the stock, and an add-stock is confirmed. A step not sent changes nothing and sends nothing, and a NaN amount emits nothing at all. A step that is sent emits exactly one request and ends with the failure notices when the request fails. |
| ProductSearch.PurchaseStep | src/app/compo/ProductSearch.js:46-58 | A purchase above the stock is refused with the not-enough notice. Otherwise the quantity drops by exactly the amount, stays at 0 or above, and the notice is the out-of-stock one exactly when it reaches 0. |
| ProductSearch.AddStockStep | src/app/compo/ProductSearch.js:59-65 | Add-stock first asks for confirmation. A refusal changes nothing and sends nothing; a confirmation raises the quantity by exactly the amount. No success notice is ever shown. |
| ProductSearch.FailedRequestKeepsChange | src/app/compo/ProductSearch.js:89-94 | The request's outcome never changes the resulting quantity: the "revert" keeps the change (the no-rollback quirk). |
| ProductSearch.Product.constructor | src/app/compo/ProductSearch.js:151-163 | A product record with the given fields. |
| ProductSearch.SearchBar.constructor | src/app/compo/ProductSearch.js:5-10 | The initial state: category "All", empty query, list and amount, purchase mode, no spinner. |
| ProductSearch.SearchBar.Rows | src/app/compo/ProductSearch.js:148-150 | No rows for a blank trimmed query. Otherwise every row is a listed product that passes `filterItems`, and every listed product that passes it is a row. |
| ProductSearch.SearchBar.FetchData | src/app/compo/ProductSearch.js:12-33 | A blank trimmed query empties the list without a request. Otherwise the search request is sent, and then the list becomes the response or, on failure, is kept while a console error and a toast are emitted. The spinner is off afterwards and no other state changes. |
| ProductSearch.SearchBar.SetSearchQuery | src/app/compo/ProductSearch.js:129 | Typing a different query stores it and runs the fetch effect, with that effect's outcome. A blank query empties the list and emits nothing. A successful search emits only the request and replaces the list. A failed search emits the request, the console error and the error toast, and keeps the list. Retyping the same query changes nothing and emits nothing. |
| ProductSearch.SearchBar.SetSelectedCategory | src/app/compo/ProductSearch.js:114-122 | Choosing an option stores its value (not its label) and leaves the list and the query as they are. |
| ProductSearch.SearchBar.SetInputValue | src/app/compo/ProductSearch.js:173-180 | The shared quantity box takes the typed text; nothing else changes. |
| ProductSearch.SearchBar.ToggleAddStockCheckbox | src/app/compo/ProductSearch.js:97-99 | The mode flips, and the typed amount and everything else stay. |
| ProductSearch.SearchBar.HandlePurchaseAddStock | src/app/compo/ProductSearch.js:38-95 | The product at position `index` of the unfiltered list gets the quantity and the events that `StockAdjustment` gives for the parsed box text. The box is cleared exactly when the request is sent. The list and every other product's quantity stay unchanged, including after a failed request. |
| ProductSearch.SearchBar.CommitStockChange | src/app/compo/ProductSearch.js:68-94 | The tail of the handler: the copy is stored, the box is cleared, the request is emitted, and on failure the failure events follow while the list is put back as rendered. |
| ProductSearch.SearchBar.ClickStockButton | src/app/compo/ProductSearch.js:181-195 | The button of rendered row k applies the mode's operation ("addStock"/"add" or "purchase"/"sub") to position k of the unfiltered list. The request names the slug and the quantity shown in row k. The query, the category, the loading flag, the mode and every other quantity keep their values. |
| AddProduct.AddProductPage.constructor | src/app/rout/AddProduct/page.js:7-8 | An empty form with the button enabled. |
| AddProduct.AddProductPage.InputValue | src/app/rout/AddProduct/page.js:91-139 | What an input shows: the form's text for its name, or "" when the form has none. It has no contract of its own; `HandleChange` and `SubmitResponse` state what every input shows. |
| AddProduct.AddProductPage.SubmitDisabled | src/app/rout/AddProduct/page.js:147 | The submit button is disabled exactly while `isClicked` holds. It has no contract of its own; `SubmitRequest` and `SubmitResponse` state when it is disabled. |
| AddProduct.AddProductPage.HandleChange | src/app/rout/AddProduct/page.js:10-16 | The named field takes the input's text, and every other input keeps showing what it showed. |
| AddProduct.AddProductPage.SubmitRequest | src/app/rout/AddProduct/page.js:18-30 | The button is disabled, and then the request goes out with the whole current form as its body. |
| AddProduct.AddProductPage.SubmitResponse | src/app/rout/AddProduct/page.js:32-65 | An ok status gives the success toast, another status the failure toast, and a thrown error only a console line. In every case the button is enabled again and every input shows "". |
| AddProduct.AddProductPage.HandleSubmit | src/app/rout/AddProduct/page.js:18-68 | The whole submit: the request with the form as it was, then the outcome's single toast, or only a console line for a thrown error, ending with an enabled button and an empty form. |
| Scenarios.ParseIntStopsAtPoint | src/app/compo/ProductSearch.js:40 | "3.9" parses as 3. |
| Scenarios.ParseIntStopsAtExponent | src/app/compo/ProductSearch.js:40 | "1e3" parses as 1. |
| Scenarios.ParseIntPlusSign | src/app/compo/ProductSearch.js:40 | "+5" parses as 5. |
| Scenarios.ParseIntLeadingZeros | src/app/compo/ProductSearch.js:40 | " 007" parses as 7. |
| Scenarios.ParseIntEmptyAndNegative | src/app/compo/ProductSearch.js:40-44 | An empty box is NaN; "-10" is -10. |
| Scenarios.FertilizerSearch | src/app/compo/ProductSearch.js:101-157 | Query "fert" under "All" shows both fertilizers; quantity 0 shows the out-of-stock label and 5 does not. |
| Scenarios.CategoryValueNotLabel | src/app/compo/ProductSearch.js:103-120 | The "Fertilizer" option has the value "Category1", so it hides a product whose slug is "Fertilizer A". |
| Scenarios.WrongRow | src/app/compo/ProductSearch.js:150-191 | With "Apple" and "Berry", query "berry" shows only Berry, while index 0 of the list is Apple. |
| Scenarios.PurchaseThree | src/app/compo/ProductSearch.js:46-77 | Stock 5, box "3": quantity 2, the success notice for 3, then the "sub" request. |
| Scenarios.PurchaseTen | src/app/compo/ProductSearch.js:46-50 | Stock 5, box "10": refused with the not-enough notice and no request. |
| Scenarios.AddFour | src/app/compo/ProductSearch.js:59-65 | Stock 5, box "4": a confirmed add-stock gives 9 and sends the request; a declined one changes nothing. |
| Scenarios.NegativeAmounts | src/app/compo/ProductSearch.js:40-62 | "-10" passes both checks: add-stock on 5 gives -5, and a purchase on 5 gives 15. |

## Left out

- Rendering (JSX markup, CSS classes, the spinner SVG, the photo, the `Header` component): only the state the view depends on is modelled, plus the rules for rows, the quantity label and the disabled button.
- HTTP, `fetch` and JSON: every response is an outcome parameter (`SearchOutcome`, `requestOk`, `CreateOutcome`). The request URLs and bodies are events, and the query is not URL-encoded in the model, just as in the code.
- `console.log(data)` after a successful stock request, and the error object passed to `console.error`: only the message prefix is recorded.
- The toast options (position, auto-close and so on) of the add-product page: only the kind and the message of a toast are modelled.
- Asynchrony: each handler runs to completion as one step. Overlapping searches, a response that arrives after the query has changed, and events between a stock click and the failure of its request are not modelled. The failure branch of the stock request is folded into the handler.
- React's batching of state updates: each update takes effect in order, which gives the same final state for these handlers.
- The browser's `required` and `type="number"` input constraints: the model's handlers accept any text, as the JavaScript does.
- JsNumbers.NumberToString: the exponent form that `toString()` and template literals switch to for magnitudes of 10^21 and more ("1e+21") is not modelled. For such amounts and quantities, the model's purchase notice, add-stock prompt and quantity cell show all the digits instead. So `AddStockPromptShowsAmount`, `PurchasedMessageShowsAmount` and `QuantityLabel` describe the model's text there, not what the browser shows.
- JsNumbers.ParseInt: Numbers are unbounded integers, so rounding above 2^53, `-0` and non-integer prices are not modelled. Prices and quantities are integers.
- JsStrings.ToLowerCase: only ASCII letters are case-mapped, not the full Unicode case mapping.
- JsStrings.IsWhiteSpace: the Zs space separators are those of current Unicode. Later additions to category Zs are not tracked.
- ProductSearch.SearchBar.HandlePurchaseAddStock: requires `index` to be inside the list. The buttons always pass a rendered row's index, which is inside the unfiltered list, and `ClickStockButton` shows this.
- ProductSearch.SearchBar.FetchData and SetSearchQuery: require the fetched records to be distinct objects. `JSON.parse` always builds a fresh object for each record, so this holds for every response. The "other rows keep their quantity" clauses of `HandlePurchaseAddStock` rely on it.
