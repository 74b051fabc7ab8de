/**
 * The product search panel: a query box and a category select drive a list
 * of products fetched from the catalogue backend; each shown product can be
 * purchased (its quantity lowered) or restocked (raised), which changes the
 * local record at once and posts the change to the stock backend.
 */
module ProductSearch {
  import opened JsStrings
  import opened JsNumbers
  import opened JsArrays
  import opened Effects

  const FetchErrorPrefix := "Error fetching data:"
  const FetchErrorMessage := "Error fetching data. Please try again later."
  const NotEnoughStockMessage := "Not enough products in stock for purchase."
  const OutOfStockMessage := "Product is now out of stock."
  const UpdateErrorPrefix := "Error updating data:"
  const UpdateErrorMessage := "Error updating data. Please try again later."
  const OutOfStockLabel := "( Out Of Stock! )"

  function PurchasedMessage(amount: int): string {
    "Purchased " + NumberToString(amount) + " product(s) successfully."
  }

  function AddStockPrompt(amount: int): string {
    "Are you sure you want to add " + NumberToString(amount) + " stock?"
  }

  /** Text made of `prefix`, a number and then anything not starting with a digit names that number after `prefix`. */
  lemma NumberAfterPrefix(prefix: string, amount: int, rest: string)
    requires rest == [] || !IsDigit(rest[0])
    ensures var r := prefix + NumberToString(amount) + rest;
      |r| > |prefix| && r[..|prefix|] == prefix && ParseInt(r[|prefix|..]) == Int(amount)
  {
    var r := prefix + NumberToString(amount) + rest;
    assert r[..|prefix|] == prefix && r[|prefix|..] == "" + NumberToString(amount) + rest;
    ParseIntReadsNumber(r[|prefix|..], "", amount, rest);
  }

  /** The purchase notice names the amount: the number after its opening words reads back as it. */
  lemma PurchasedMessageShowsAmount(amount: int)
    ensures var r := PurchasedMessage(amount);
      |r| > 10 && r[..10] == "Purchased " && ParseInt(r[10..]) == Int(amount)
  {
    NumberAfterPrefix("Purchased ", amount, " product(s) successfully.");
  }

  /** The confirm prompt names the amount: the number after its opening words reads back as it. */
  lemma AddStockPromptShowsAmount(amount: int)
    ensures var r := AddStockPrompt(amount);
      |r| > 29 && r[..29] == "Are you sure you want to add " && ParseInt(r[29..]) == Int(amount)
  {
    NumberAfterPrefix("Are you sure you want to add ", amount, " stock?");
  }

  /** The options of the category select, as (value, label); the value is what the filter compares. */
  const CategoryOptions: seq<(string, string)> :=
    [("All", "All"), ("Category1", "Fertilizer"), ("Category2", "Fertilizer 2")]

  /** `v` is the value of one of the options: "All", "Category1" or "Category2". */
  predicate IsCategoryValue(v: string): (b: bool)
    ensures b <==> v == "All" || v == "Category1" || v == "Category2"
  {
    assert CategoryOptions[0].0 == "All" && CategoryOptions[1].0 == "Category1" && CategoryOptions[2].0 == "Category2";
    exists k :: 0 <= k < |CategoryOptions| && CategoryOptions[k].0 == v
  }

  /**
   * A product record as the catalogue returns it. Only `quntity` is ever
   * changed, in place; the records are shared by every copy of the list.
   */
  class Product {
    const id: string
    const slug: string
    const price: int
    const photo: string
    var quntity: int

    constructor (id: string, slug: string, price: int, quntity: int, photo: string)
      ensures this.id == id && this.slug == slug && this.price == price
      ensures this.quntity == quntity && this.photo == photo
    {
      this.id := id;
      this.slug := slug;
      this.price := price;
      this.quntity := quntity;
      this.photo := photo;
    }
  }

  /**
   * filterItems: the category test (passed by "All", otherwise the lower-cased
   * category value must occur in the lower-cased slug) and the search test
   * (the lower-cased query occurs in the lower-cased slug or in the decimal
   * text of the price).
   */
  function FilterItems(item: Product, searchQuery: string, selectedCategory: string): (keep: bool)
    ensures keep <==>
      && (selectedCategory == "All" || IsInfix(ToLowerCase(item.slug), ToLowerCase(selectedCategory)))
      && (|| IsInfix(ToLowerCase(item.slug), ToLowerCase(searchQuery))
          || IsInfix(NumberToString(item.price), ToLowerCase(searchQuery)))
  {
    var searchTerm := ToLowerCase(searchQuery);
    var categoryMatches :=
      selectedCategory == "All" || Includes(ToLowerCase(item.slug), ToLowerCase(selectedCategory));
    var searchMatches :=
      Includes(ToLowerCase(item.slug), searchTerm) || Includes(NumberToString(item.price), searchTerm);
    categoryMatches && searchMatches
  }

  /** `filterItems` as the callback handed to `filter`. */
  function Matches(searchQuery: string, selectedCategory: string): Product -> bool {
    (item: Product) => FilterItems(item, searchQuery, selectedCategory)
  }

  /** Category "All" leaves only the search test. */
  lemma CategoryAllKeepsSearchMatches(item: Product, searchQuery: string)
    ensures FilterItems(item, searchQuery, "All") <==>
      Includes(ToLowerCase(item.slug), ToLowerCase(searchQuery))
      || Includes(NumberToString(item.price), ToLowerCase(searchQuery))
  {
  }

  /**
   * Row k of the rendered list is the product at position k of the
   * unfiltered list exactly when none of the products up to it was filtered
   * out; the stock buttons of row k change the quantity of the latter.
   */
  lemma ClickedRowIsChangedRow(items: seq<Product>, searchQuery: string, selectedCategory: string, k: nat)
    requires Distinct(items)
    requires k < |Filter(items, Matches(searchQuery, selectedCategory))|
    ensures Filter(items, Matches(searchQuery, selectedCategory))[k] == items[k] <==>
      forall j :: 0 <= j <= k ==> FilterItems(items[j], searchQuery, selectedCategory)
  {
    FilteredIndexIsOriginalIndex(items, Matches(searchQuery, selectedCategory), k);
  }

  /** The quantity cell: the out-of-stock label for a quantity of 0 or less, otherwise the number. */
  function QuantityLabel(quntity: int): (text: string)
    ensures text == OutOfStockLabel <==> quntity <= 0
    ensures quntity > 0 ==> ParseInt(text) == Int(quntity)
  {
    if quntity <= 0 then
      OutOfStockLabel
    else
      ParseIntOfNumberToString(quntity);
      NumberToString(quntity)
  }

  /** What the failure branch of the stock request adds to the events. */
  function ActionFailureEvents(requestOk: bool): seq<Event> {
    if requestOk then [] else [ConsoleError(UpdateErrorPrefix), Toast(Error, UpdateErrorMessage)]
  }

  /** The events from sending the stock request onwards. */
  function RequestEvents(request: Event, requestOk: bool): seq<Event> {
    [request] + ActionFailureEvents(requestOk)
  }

  /** `request` is the one stock request among `events`, at position i. */
  predicate OnlyRequestAt(events: seq<Event>, request: Event, i: nat) {
    && i < |events| && events[i] == request
    && forall j :: 0 <= j < |events| && j != i ==> !events[j].ActionRequest?
  }

  /** What one stock adjustment does to the product it is applied to. */
  datatype StockStep = StockStep(quantity: int, sent: bool, events: seq<Event>)

  /**
   * handlePurchaseAddStock on a product of quantity `quantity`, given the
   * parsed amount, the operation name, the answer to the confirm dialog and
   * whether the stock request (`request`) succeeds: the product's new
   * quantity, whether the request was sent (the input is then cleared) and
   * the events in order. Its properties are the lemmas below.
   */
  function StockAdjustment(amount: IntOrNaN, operation: string, quantity: int, confirmed: bool,
                           request: Event, requestOk: bool): StockStep
  {
    match amount
    case NaN => StockStep(quantity, false, [])
    case Int(n) =>
      if operation == "purchase" then
        if n > quantity then
          StockStep(quantity, false, [Toast(Error, NotEnoughStockMessage)])
        else
          var q := quantity - n;
          var notice := if q == 0 then Toast(Error, OutOfStockMessage) else Toast(Success, PurchasedMessage(n));
          StockStep(q, true, [notice] + RequestEvents(request, requestOk))
      else if operation == "addStock" then
        var prompt := ConfirmPrompt(AddStockPrompt(n));
        if !confirmed then
          StockStep(quantity, false, [prompt])
        else
          StockStep(quantity + n, true, [prompt] + RequestEvents(request, requestOk))
      else
        StockStep(quantity, true, RequestEvents(request, requestOk))
  }

  /**
   * A step is carried out unless the text is NaN, the purchase exceeds the
   * stock or the confirmation is declined. One that is not carried out
   * changes nothing and sends nothing (and a NaN amount emits nothing at
   * all); one that is sends exactly one request, the given one, and ends
   * with the failure notice when that request fails.
   */
  lemma StockStepSendsOnce(amount: IntOrNaN, operation: string, quantity: int, confirmed: bool,
                           request: Event, requestOk: bool)
    requires request.ActionRequest?
    ensures var step := StockAdjustment(amount, operation, quantity, confirmed, request, requestOk);
      && (step.sent <==> amount.Int? && (operation == "purchase" ==> amount.value <= quantity)
                                     && (operation == "addStock" ==> confirmed))
      && (!step.sent ==> step.quantity == quantity && forall e :: e in step.events ==> !e.ActionRequest?)
      && (amount.NaN? ==> step.events == [])
      && (step.sent ==> exists i :: OnlyRequestAt(step.events, request, i))
      && (step.sent ==>
            && |ActionFailureEvents(requestOk)| < |step.events|
            && step.events[|step.events| - |ActionFailureEvents(requestOk)|..] == ActionFailureEvents(requestOk))
  {
    var step := StockAdjustment(amount, operation, quantity, confirmed, request, requestOk);
    if step.sent {
      var i := if operation == "purchase" || operation == "addStock" then 1 else 0;
      assert OnlyRequestAt(step.events, request, i);
    }
  }

  /**
   * A purchase is refused with a notice when it exceeds the stock; otherwise
   * the quantity drops by exactly the amount, never below 0, and the notice
   * is the out-of-stock one exactly when it reaches 0.
   */
  lemma PurchaseStep(n: int, quantity: int, confirmed: bool, request: Event, requestOk: bool)
    requires request.ActionRequest?
    ensures var step := StockAdjustment(Int(n), "purchase", quantity, confirmed, request, requestOk);
      && (n > quantity ==> step.quantity == quantity && step.events == [Toast(Error, NotEnoughStockMessage)])
      && (n <= quantity ==>
            && step.quantity == quantity - n && step.quantity >= 0
            && step.events[0] == (if step.quantity == 0 then Toast(Error, OutOfStockMessage)
                                  else Toast(Success, PurchasedMessage(n))))
  {
  }

  /**
   * Adding stock asks first; declined, nothing changes; confirmed, the
   * quantity rises by exactly the amount. No success notice is shown.
   */
  lemma AddStockStep(n: int, quantity: int, confirmed: bool, request: Event, requestOk: bool)
    requires request.ActionRequest?
    ensures var step := StockAdjustment(Int(n), "addStock", quantity, confirmed, request, requestOk);
      && step.events[0] == ConfirmPrompt(AddStockPrompt(n))
      && (!confirmed ==> step.quantity == quantity && step.events == [ConfirmPrompt(AddStockPrompt(n))])
      && (confirmed ==> step.quantity == quantity + n)
      && forall e :: e in step.events ==> !(e.Toast? && e.kind == Success)
  {
  }

  /**
   * The "revert" of a failed request puts back the list as rendered, whose
   * records were changed in place: the outcome of the request never changes
   * the quantity the step leaves.
   */
  lemma FailedRequestKeepsChange(amount: IntOrNaN, operation: string, quantity: int, confirmed: bool, request: Event)
    requires request.ActionRequest?
    ensures StockAdjustment(amount, operation, quantity, confirmed, request, false).quantity ==
            StockAdjustment(amount, operation, quantity, confirmed, request, true).quantity
  {
  }

  /** How a catalogue request ends: a parsed product list, a non-ok status, or a thrown error. */
  datatype SearchOutcome = Fetched(products: seq<Product>) | NotOk | Thrown

  /** The search bar component and its state. */
  class SearchBar {
    var selectedCategory: string
    var searchQuery: string
    var dropdown: seq<Product>
    var inputValue: string
    var isAddChecked: bool
    var loading: bool

    ghost predicate Valid()
      reads this
    {
      Distinct(dropdown) && IsCategoryValue(selectedCategory)
    }

    /** The initial state, which the first run of the query effect (on "") leaves as it is. */
    constructor ()
      ensures Valid()
      ensures selectedCategory == "All" && searchQuery == "" && dropdown == []
      ensures inputValue == "" && !isAddChecked && !loading
    {
      selectedCategory := "All";
      searchQuery := "";
      dropdown := [];
      inputValue := "";
      isAddChecked := false;
      loading := false;
      assert CategoryOptions[0].0 == "All";
    }

    /** The rendered result rows: none for a blank query, otherwise the filtered list. */
    function Rows(): (rows: seq<Product>)
      reads this
      ensures |rows| <= |dropdown|
      ensures Trim(searchQuery) == "" ==> rows == []
      ensures forall k :: 0 <= k < |rows| ==>
        rows[k] in dropdown && FilterItems(rows[k], searchQuery, selectedCategory)
      ensures forall j :: 0 <= j < |dropdown| ==>
        (Trim(searchQuery) != "" && FilterItems(dropdown[j], searchQuery, selectedCategory) ==> dropdown[j] in rows)
    {
      if Trim(searchQuery) == "" then
        []
      else
        FilterMembers(dropdown, Matches(searchQuery, selectedCategory));
        Filter(dropdown, Matches(searchQuery, selectedCategory))
    }

    /**
     * One run of the query effect: the list becomes empty for a blank query,
     * is replaced by the response otherwise, and is kept as it was when the
     * request fails; the spinner is off afterwards.
     */
    method FetchData(outcome: SearchOutcome) returns (events: seq<Event>)
      requires Valid()
      requires outcome.Fetched? ==> Distinct(outcome.products)
      modifies this
      ensures Valid() && !loading
      ensures searchQuery == old(searchQuery) && selectedCategory == old(selectedCategory)
      ensures inputValue == old(inputValue) && isAddChecked == old(isAddChecked)
      ensures Trim(searchQuery) == "" ==> dropdown == [] && events == []
      ensures Trim(searchQuery) != "" && outcome.Fetched? ==>
        dropdown == outcome.products && events == [SearchRequest(searchQuery)]
      ensures Trim(searchQuery) != "" && !outcome.Fetched? ==>
        && dropdown == old(dropdown)
        && events == [SearchRequest(searchQuery), ConsoleError(FetchErrorPrefix), Toast(Error, FetchErrorMessage)]
    {
      loading := true;
      if Trim(searchQuery) == "" {
        dropdown := [];
        events := [];
      } else {
        events := [SearchRequest(searchQuery)];
        match outcome
        case Fetched(products) =>
          dropdown := products;
        case _ =>
          events := events + [ConsoleError(FetchErrorPrefix), Toast(Error, FetchErrorMessage)];
      }
      loading := false;
    }

    /** Typing in the query box; the effect runs only when the query changes. */
    method SetSearchQuery(query: string, outcome: SearchOutcome) returns (events: seq<Event>)
      requires Valid()
      requires outcome.Fetched? ==> Distinct(outcome.products)
      modifies this
      ensures Valid() && searchQuery == query
      ensures selectedCategory == old(selectedCategory)
      ensures inputValue == old(inputValue) && isAddChecked == old(isAddChecked)
      ensures query == old(searchQuery) ==>
        dropdown == old(dropdown) && loading == old(loading) && events == []
      ensures query != old(searchQuery) ==> !loading
      ensures query != old(searchQuery) && Trim(query) == "" ==> dropdown == [] && events == []
      ensures query != old(searchQuery) && Trim(query) != "" ==>
        && events == (if outcome.Fetched? then [SearchRequest(query)]
                      else [SearchRequest(query), ConsoleError(FetchErrorPrefix), Toast(Error, FetchErrorMessage)])
        && dropdown == (if outcome.Fetched? then outcome.products else old(dropdown))
    {
      if query == searchQuery {
        events := [];
      } else {
        searchQuery := query;
        events := FetchData(outcome);
      }
    }

    /** Choosing a category option; the filter is re-applied to the list already fetched. */
    method SetSelectedCategory(value: string)
      requires Valid()
      requires IsCategoryValue(value)
      modifies this
      ensures Valid() && selectedCategory == value
      ensures searchQuery == old(searchQuery) && dropdown == old(dropdown)
      ensures inputValue == old(inputValue) && isAddChecked == old(isAddChecked) && loading == old(loading)
    {
      selectedCategory := value;
    }

    /** Typing in the quantity box (one box value shared by every row). */
    method SetInputValue(value: string)
      requires Valid()
      modifies this
      ensures Valid() && inputValue == value
      ensures searchQuery == old(searchQuery) && selectedCategory == old(selectedCategory)
      ensures dropdown == old(dropdown) && isAddChecked == old(isAddChecked) && loading == old(loading)
    {
      inputValue := value;
    }

    /** toggleAddStockCheckbox: switches between purchase and add-stock mode; the typed amount stays. */
    method ToggleAddStockCheckbox()
      requires Valid()
      modifies this
      ensures Valid() && isAddChecked == !old(isAddChecked)
      ensures inputValue == old(inputValue) && dropdown == old(dropdown)
      ensures searchQuery == old(searchQuery) && selectedCategory == old(selectedCategory) && loading == old(loading)
    {
      isAddChecked := !isAddChecked;
    }

    /**
     * handlePurchaseAddStock. `index` is applied to the unfiltered list;
     * `slug`, `value` and `qunti` only travel in the request. `confirmed` is
     * the answer to the confirm dialog and `requestOk` whether the stock
     * request succeeds. The list is copied shallowly, so the record changed
     * here is the one the rendered list holds, and putting that list back on
     * failure leaves the change in place.
     */
    method HandlePurchaseAddStock(index: nat, operation: string, action: string, slug: string,
                                  value: string, qunti: int, confirmed: bool, requestOk: bool)
      returns (events: seq<Event>)
      requires Valid()
      requires index < |dropdown|
      modifies this, dropdown[index]
      ensures Valid() && dropdown == old(dropdown)
      ensures searchQuery == old(searchQuery) && selectedCategory == old(selectedCategory)
      ensures isAddChecked == old(isAddChecked) && loading == old(loading)
      ensures forall j :: 0 <= j < |dropdown| && j != index ==> dropdown[j].quntity == old(dropdown[j].quntity)
      ensures var step := StockAdjustment(ParseInt(old(inputValue)), operation, old(dropdown[index].quntity),
                                          confirmed, ActionRequest(action, slug, value, qunti), requestOk);
        && dropdown[index].quntity == step.quantity
        && inputValue == (if step.sent then "" else old(inputValue))
        && events == step.events
    {
      var rendered := dropdown;
      var updatedDropdown := dropdown;
      var amount := ParseInt(inputValue);
      events := [];
      if amount.NaN? {
        return;
      }
      var n := amount.value;
      var item := updatedDropdown[index];
      if operation == "purchase" {
        if n > item.quntity {
          events := [Toast(Error, NotEnoughStockMessage)];
          return;
        }
        item.quntity := item.quntity - n;
        if item.quntity == 0 {
          events := [Toast(Error, OutOfStockMessage)];
        } else {
          events := [Toast(Success, PurchasedMessage(n))];
        }
      } else if operation == "addStock" {
        events := [ConfirmPrompt(AddStockPrompt(n))];
        if !confirmed {
          return;
        }
        item.quntity := item.quntity + n;
      }
      var sent := CommitStockChange(rendered, updatedDropdown, ActionRequest(action, slug, value, qunti), requestOk);
      events := events + sent;
    }

    /**
     * The tail of handlePurchaseAddStock once the change is made: store the
     * updated copy, clear the input, send the request and, if it fails,
     * report it and put back the list as rendered.
     */
    method CommitStockChange(rendered: seq<Product>, updatedDropdown: seq<Product>, request: Event, requestOk: bool)
      returns (events: seq<Event>)
      requires Valid() && Distinct(rendered) && updatedDropdown == rendered
      modifies this
      ensures Valid() && dropdown == rendered && inputValue == ""
      ensures searchQuery == old(searchQuery) && selectedCategory == old(selectedCategory)
      ensures isAddChecked == old(isAddChecked) && loading == old(loading)
      ensures events == RequestEvents(request, requestOk)
    {
      dropdown := updatedDropdown;
      inputValue := "";
      events := [request];
      if !requestOk {
        events := events + [ConsoleError(UpdateErrorPrefix), Toast(Error, UpdateErrorMessage)];
        dropdown := rendered;
      }
      assert events == RequestEvents(request, requestOk);
    }

    /**
     * The "Purchase-" / "Add Stock" button of rendered row k: the mode picks
     * the operation; the request names the product shown in row k with the
     * quantity shown there, while the quantity changed is that of position k
     * of the unfiltered list.
     */
    method ClickStockButton(k: nat, confirmed: bool, requestOk: bool) returns (events: seq<Event>)
      requires Valid()
      requires k < |Rows()|
      modifies this, dropdown[k]
      ensures Valid() && dropdown == old(dropdown) && isAddChecked == old(isAddChecked)
      ensures searchQuery == old(searchQuery) && selectedCategory == old(selectedCategory) && loading == old(loading)
      ensures forall j :: 0 <= j < |dropdown| && j != k ==> dropdown[j].quntity == old(dropdown[j].quntity)
      ensures var shown := old(Rows()[k]);
        var step := StockAdjustment(ParseInt(old(inputValue)), if isAddChecked then "addStock" else "purchase",
                                    old(dropdown[k].quntity), confirmed,
                                    ActionRequest(if isAddChecked then "add" else "sub", shown.slug,
                                                  old(inputValue), old(shown.quntity)),
                                    requestOk);
        && dropdown[k].quntity == step.quantity
        && inputValue == (if step.sent then "" else old(inputValue))
        && events == step.events
    {
      var rows := Rows();
      var item := rows[k];
      if isAddChecked {
        events := HandlePurchaseAddStock(k, "addStock", "add", item.slug, inputValue, item.quntity, confirmed, requestOk);
      } else {
        events := HandlePurchaseAddStock(k, "purchase", "sub", item.slug, inputValue, item.quntity, confirmed, requestOk);
      }
    }
  }
}
