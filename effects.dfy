/**
 * What the two components do to the world outside their own state: toast
 * notifications, the blocking confirm dialog, requests to the backend and
 * console error lines. Each handler of the model returns the events it emits,
 * in the order the component emits them.
 */
module Effects {

  /** The two toast styles used: `toast.success` and `toast.error`. */
  datatype ToastKind = Success | Error

  datatype Event =
    | Toast(kind: ToastKind, message: string)
      /** `window.confirm(message)`; the user's answer is an input of the handler */
    | ConfirmPrompt(message: string)
      /** GET /api/search?query=<query>, the raw query text */
    | SearchRequest(query: string)
      /** POST /api/action with body {action, slug, value, qunti} */
    | ActionRequest(action: string, slug: string, value: string, qunti: int)
      /** POST /api/product with the form map as body */
    | CreateRequest(body: map<string, string>)
      /** `console.error(prefix, error)`; the error object itself is not modelled */
    | ConsoleError(prefix: string)
}
