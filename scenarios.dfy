/**
 * Concrete runs of the search panel's rules: the fertilizer search, the
 * category select comparing option values, the wrong row of a filtered list,
 * and stock adjustments, negative amounts included.
 */
module Scenarios {
  import opened JsStrings
  import opened JsNumbers
  import opened JsArrays
  import opened Effects
  import opened ProductSearch

  /** `parseInt` stops at the first character that is not a digit: "3.9" is 3. */
  lemma ParseIntStopsAtPoint()
    ensures ParseInt("3.9") == Int(3)
  {
    assert "3.9" == "" + NumberToString(3) + ".9";
    ParseIntReadsNumber("3.9", "", 3, ".9");
  }

  /** ... and an exponent is not read: "1e3" is 1. */
  lemma ParseIntStopsAtExponent()
    ensures ParseInt("1e3") == Int(1)
  {
    assert "1e3" == "" + NumberToString(1) + "e3";
    ParseIntReadsNumber("1e3", "", 1, "e3");
  }

  /** A '+' sign is accepted: "+5" is 5. */
  lemma ParseIntPlusSign()
    ensures ParseInt("+5") == Int(5)
  {
    assert DigitsValue("5") == 5 by {
      assert "5"[..0] == "";
    }
    ParseIntDigits("+5", "", "+", "5", "");
  }

  /** Leading zeros are accepted: " 007" is 7. */
  lemma ParseIntLeadingZeros()
    ensures ParseInt(" 007") == Int(7)
  {
    assert DigitsValue("007") == 7 by {
      assert "007"[..2] == "00" && "00"[..1] == "0" && "0"[..0] == "";
    }
    ParseIntDigits(" 007", " ", "", "007", "");
  }

  /** An empty input is NaN; a negative one is read with its sign. */
  lemma ParseIntEmptyAndNegative()
    ensures ParseInt("") == NaN && ParseInt("-10") == Int(-10)
  {
    ParseIntNoDigits("", "", "");
    ParseIntOfNumberToString(-10);
    assert NumberToString(-10) == "-10";
  }

  /** Filtering two elements of which only the second is kept, or both. */
  lemma FilterPair<T>(a: T, b: T, keep: T -> bool)
    requires keep(b)
    ensures Filter([a, b], keep) == if keep(a) then [a, b] else [b]
  {
    assert [a, b][..1] == [a];
    assert [a][..0] == [];
  }

  /** The lower case of "Fertilizer A" and of "Fertilizer B" begins with "fert". */
  lemma LowerFertilizer(slug: string)
    requires slug == "Fertilizer A" || slug == "Fertilizer B"
    ensures var r := ToLowerCase(slug); |r| == 12 && r[..4] == "fert"
  {
    var r := ToLowerCase(slug);
    assert r[0] == 'f' && r[1] == 'e' && r[2] == 'r' && r[3] == 't';
  }

  /**
   * Query "fert", category "All": both fertilizers are shown, and the one
   * with quantity 0 shows the out-of-stock label.
   */
  lemma FertilizerSearch(a: Product, b: Product)
    requires a.slug == "Fertilizer A" && b.slug == "Fertilizer B"
    ensures Filter([a, b], Matches("fert", "All")) == [a, b]
    ensures QuantityLabel(0) == OutOfStockLabel && QuantityLabel(5) != OutOfStockLabel
  {
    ToLowerCaseKeepsNonLetters("fert");
    LowerFertilizer(a.slug);
    LowerFertilizer(b.slug);
    assert OccursAt(ToLowerCase(a.slug), "fert", 0);
    assert OccursAt(ToLowerCase(b.slug), "fert", 0);
    FilterPair(a, b, Matches("fert", "All"));
  }

  /** A pattern whose first character is missing from where it could start does not occur. */
  lemma FirstCharMissing(r: string, c: string)
    requires 0 < |c| <= |r|
    requires forall i :: 0 <= i <= |r| - |c| ==> r[i] != c[0]
    ensures !IsInfix(r, c)
  {
    forall i: nat
      ensures !OccursAt(r, c, i)
    {
      if i + |c| <= |r| {
        assert r[i..i + |c|][0] == r[i];
      }
    }
  }

  /**
   * The select compares the option value "Category1", not its label
   * "Fertilizer": a fertilizer is hidden under the "Fertilizer" option.
   */
  lemma CategoryValueNotLabel(a: Product)
    requires a.slug == "Fertilizer A"
    ensures CategoryOptions[1] == ("Category1", "Fertilizer")
    ensures !FilterItems(a, "fert", "Category1")
  {
    LowerFertilizer(a.slug);
    var r := ToLowerCase(a.slug);
    var c := ToLowerCase("Category1");
    assert |c| == 9 && c[0] == 'c';
    forall i | 0 <= i <= 3
      ensures r[i] != c[0]
    {
      assert r[i] == r[..4][i];
    }
    FirstCharMissing(r, c);
  }

  /**
   * Two products, query "berry": the only row is the second product, yet
   * index 0 of the unfiltered list, which its buttons pass, is the first one.
   */
  lemma WrongRow(a: Product, b: Product)
    requires a.slug == "Apple" && a.price == 5 && b.slug == "Berry" && b.price == 7
    ensures Filter([a, b], Matches("berry", "All")) == [b]
    ensures [a, b][0] == a != b
  {
    ToLowerCaseKeepsNonLetters("berry");
    var la := ToLowerCase(a.slug);
    var lb := ToLowerCase(b.slug);
    assert la[0] == 'a';
    assert lb == "berry";
    assert !IsInfix(la, "berry") by {
      forall i: nat
        ensures !OccursAt(la, "berry", i)
      {
        if i == 0 {
          assert la[0] != "berry"[0];
        }
      }
    }
    assert NumberToString(5) == "5";
    assert OccursAt(lb, "berry", 0);
    FilterPair(a, b, Matches("berry", "All"));
  }

  /** The purchase notice for 3. */
  lemma PurchasedThreeMessage()
    ensures PurchasedMessage(3) == "Purchased 3 product(s) successfully."
  {
    assert NumberToString(3) == "3";
  }

  /** Quantity 5, input "3": the purchase leaves 2 with the success notice, and the "sub" request goes out. */
  lemma PurchaseThree(request: Event)
    requires request == ActionRequest("sub", "Fertilizer A", "3", 5)
    ensures StockAdjustment(ParseInt("3"), "purchase", 5, false, request, true) ==
            StockStep(2, true, [Toast(Success, "Purchased 3 product(s) successfully."), request])
  {
    ParseIntOfNumberToString(3);
    assert NumberToString(3) == "3";
    PurchasedThreeMessage();
  }

  /** Quantity 5, input "10": the purchase is refused with a notice and no request. */
  lemma PurchaseTen(request: Event)
    requires request == ActionRequest("sub", "Fertilizer A", "10", 5)
    ensures StockAdjustment(ParseInt("10"), "purchase", 5, false, request, true) ==
            StockStep(5, false, [Toast(Error, "Not enough products in stock for purchase.")])
  {
    ParseIntOfNumberToString(10);
    assert NumberToString(10) == "10";
  }

  /** Quantity 5, input "4", add-stock mode: confirmed gives 9 and sends the "add" request; declined changes nothing. */
  lemma AddFour(request: Event)
    requires request == ActionRequest("add", "Fertilizer A", "4", 5)
    ensures var step := StockAdjustment(ParseInt("4"), "addStock", 5, true, request, true);
      step.quantity == 9 && step.sent && request in step.events
    ensures var step := StockAdjustment(ParseInt("4"), "addStock", 5, false, request, true);
      step.quantity == 5 && !step.sent && request !in step.events
  {
    ParseIntOfNumberToString(4);
    assert NumberToString(4) == "4";
  }

  /**
   * A negative amount passes both checks: adding "-10" to a stock of 5
   * leaves -5, while purchasing "-10" raises the stock to 15.
   */
  lemma NegativeAmounts(request: Event)
    requires request.ActionRequest?
    ensures StockAdjustment(ParseInt("-10"), "addStock", 5, true, request, true).quantity == -5
    ensures StockAdjustment(ParseInt("-10"), "purchase", 5, false, request, true).quantity == 15
  {
    ParseIntEmptyAndNegative();
  }
}
