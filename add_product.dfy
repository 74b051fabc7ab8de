/**
 * The product-creation page: a form whose fields are kept in a map from the
 * input's name to its text, and a submit handler that posts the whole map,
 * keeps the button disabled while the request is out, reports the outcome
 * and then empties the form.
 */
module AddProduct {
  import opened Effects

  const SuccessMessage := "\U{1F984} Product Added SuccessFully!"
  const FailureMessage := "Something Went Wrong, Please Try Again!"
  const ErrorPrefix := "Error:"

  /** How the create request ends: an ok status, another status, or a thrown error. */
  datatype CreateOutcome = Ok | NotOk | Thrown

  /** The page component and its state. */
  class AddProductPage {
    var productForm: map<string, string>
    var isClicked: bool

    constructor ()
      ensures productForm == map[] && !isClicked
    {
      productForm := map[];
      isClicked := false;
    }

    /** `productForm?.<name> || ""`: the text input `name` shows. */
    function InputValue(name: string): string
      reads this
    {
      if name in productForm then productForm[name] else ""
    }

    /** `disabled={isClicked}` on the submit button. */
    predicate SubmitDisabled()
      reads this
    {
      isClicked
    }

    /** handleChange: the edited field takes the input's text; every other field keeps its own. */
    method HandleChange(name: string, value: string)
      modifies this
      ensures productForm == old(productForm)[name := value]
      ensures isClicked == old(isClicked)
      ensures InputValue(name) == value
      ensures forall other :: other != name ==> InputValue(other) == old(InputValue(other))
    {
      productForm := productForm[name := value];
    }

    /**
     * handleSubmit up to its await: the button is disabled first, then the
     * request goes out with the whole current form as its body.
     */
    method SubmitRequest() returns (request: Event)
      modifies this
      ensures isClicked && SubmitDisabled()
      ensures productForm == old(productForm)
      ensures request == CreateRequest(productForm)
    {
      isClicked := true;
      request := CreateRequest(productForm);
    }

    /**
     * handleSubmit from its await on: the notice for an ok or a failed
     * status, only a console line for a thrown error, and in every case the
     * button enabled again and the form emptied.
     */
    method SubmitResponse(outcome: CreateOutcome) returns (events: seq<Event>)
      modifies this
      ensures !isClicked && !SubmitDisabled() && productForm == map[]
      ensures forall name :: InputValue(name) == ""
      ensures outcome == Ok ==> events == [Toast(Success, SuccessMessage)]
      ensures outcome == NotOk ==> events == [Toast(Error, FailureMessage)]
      ensures outcome == Thrown ==> events == [ConsoleError(ErrorPrefix)]
    {
      match outcome {
        case Ok =>
          events := [Toast(Success, SuccessMessage)];
        case NotOk =>
          events := [Toast(Error, FailureMessage)];
        case Thrown =>
          events := [ConsoleError(ErrorPrefix)];
      }
      isClicked := false;
      productForm := map[];
    }

    /** handleSubmit as a whole, with the outcome of the request as input. */
    method HandleSubmit(outcome: CreateOutcome) returns (events: seq<Event>)
      modifies this
      ensures |events| == 2 && events[0] == CreateRequest(old(productForm))
      ensures events[1] == match outcome
        case Ok => Toast(Success, SuccessMessage)
        case NotOk => Toast(Error, FailureMessage)
        case Thrown => ConsoleError(ErrorPrefix)
      ensures !isClicked && productForm == map[]
    {
      var request := SubmitRequest();
      var rest := SubmitResponse(outcome);
      events := [request] + rest;
    }
  }
}
