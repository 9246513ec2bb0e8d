/** The `POST /api/check-email` handler: look the email up in the `users`
    table and answer whether a row matched. */
module CheckEmail {
  import opened JsValues
  import opened Http
  import SignUp

  /** The JSON bodies the handler can send. */
  datatype Body = ExistsBody(emailExists: bool) | ErrorBody(error: string)

  /** The email the `users` table was queried for (if it was queried) and
      the response sent. */
  datatype Handled = Handled(query: Option<JsValue>, response: Response<Body>)

  const MissingEmail := "Email is required"

  /** `POST`: `body` is what `req.json()` yields (`None` when it throws);
      `backend` is how `select("email").eq("email", email)` ends, with the
      matching rows on success. */
  function HandlePost(body: Option<JsValue>, backend: Backend<seq<string>>): (h: Handled)
    // a body that cannot be read or destructured is a 500 saying "no"
    ensures body.None? || !Destructurable(body.value) ==>
      h == Handled(None, Response(500, ExistsBody(false)))
    // a falsy email is a 400, with no query
    ensures body.Some? && Destructurable(body.value) && !Truthy(Prop(body.value, "email")) ==>
      h == Handled(None, Response(400, ErrorBody(MissingEmail)))
    ensures h.query.Some? <==> (body.Some? && Destructurable(body.value) && Truthy(Prop(body.value, "email")))
    ensures h.query.Some? ==> h.query.value == Prop(body.value, "email")
    // a failed query is a 500, still with `exists: false`
    ensures h.query.Some? && !backend.Ok? ==> h.response == Response(500, ExistsBody(false))
    // success: 200, and `exists` holds iff some row matched
    ensures h.response.status == 200 <==> h.query.Some? && backend.Ok?
    ensures h.response.status == 200 ==> h.response.body == ExistsBody(|backend.data| > 0)
    // the only `exists: true` answer is a successful query with a match
    ensures h.response.body == ExistsBody(true) ==> h.response.status == 200 && |backend.data| > 0
  {
    if body.None? || !Destructurable(body.value) then
      Handled(None, Response(500, ExistsBody(false)))
    else
      var email := Prop(body.value, "email");
      if !Truthy(email) then
        Handled(None, Response(400, ErrorBody(MissingEmail)))
      else
        match backend
        case Ok(data) => Handled(Some(email), Response(200, ExistsBody(|data| > 0)))
        case Err(_) => Handled(Some(email), Response(500, ExistsBody(false)))
        case Threw => Handled(Some(email), Response(500, ExistsBody(false)))
  }

  /** The route and the sign-up page's own lookup agree on every answer the
      database gives; they differ only in how they report a failed query:
      the route with status 500, the page by a plain `false` that reads
      like "not found". */
  lemma RouteAndPageAgree(email: string, rows: seq<string>, message: string)
    requires email != ""
    ensures var body := Some(Obj([("email", Str(email))]));
      HandlePost(body, Ok(rows)).response.body ==
        ExistsBody(SignUp.CheckEmailExists(SignUp.LookupResponse(true, rows))) &&
      HandlePost(body, Err(message)).response.status == 500 &&
      !SignUp.CheckEmailExists(SignUp.LookupResponse(false, rows)) &&
      HandlePost(body, Err(message)).response.body == HandlePost(body, Ok([])).response.body
  {
    var b := Obj([("email", Str(email))]);
    assert Prop(b, "email") == Str(email);
  }
}
