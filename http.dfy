/**
 * What the three API route handlers exchange with the outside: the JSON
 * response they return and the outcome of the one call each makes to the
 * generative-language model.
 */
module Http {
  import opened Wrappers
  import opened Json

  /** `Response.json(body, { status })`; the status defaults to 200. */
  datatype HttpResponse = HttpResponse(status: int, body: JVal)

  /** The outcome of awaiting `generateContent`: the response's `text` (absent text is `""`), or a rejection. */
  datatype Completion =
    | Reply(text: string)
    | Failed(message: Option<string>)   // the `message` of a thrown `Error`; `None` for any other thrown value

  /** `Response.json({ error: message }, { status })`. */
  function ErrorResponse(status: int, message: string): (r: HttpResponse)
    ensures r.status == status && r.body.JObj? && r.body.fields.Keys == {"error"}
    ensures Prop(r.body, "error") == Some(JStr(message))
  {
    HttpResponse(status, JObj(map["error" := JStr(message)]))
  }
}
