/** The four handlers of `/api/posts`: each validates its request, makes at
    most one database call, and maps the call's outcome to a status and a
    body. */
module PostsRoute {
  import opened JsValues
  import opened Http
  import opened Posts

  /** The JSON bodies the handlers can send. */
  datatype Body =
    | ErrorBody(error: string)
    | PostsBody(posts: seq<Post>)
    | PostBody(post: Post)
    | MessageBody(message: string)

  /** The fields a `PUT` passes to `.update(...)`, as received. */
  datatype Patch = Patch(
    tone: JsValue,
    topic: JsValue,
    content: JsValue,
    targetAudience: JsValue,
    targetReaction: JsValue)

  /** The database call a handler makes. */
  datatype Call =
    | SelectByUser(userId: string)
    | InsertRow(row: NewRow)
    | UpdateById(id: JsValue, patch: Patch)
    | DeleteById(postId: string)

  /** The call a handler made (if any) and the response it sent. */
  datatype Handled = Handled(call: Option<Call>, response: Response<Body>)

  const InternalError := "Internal server error"
  const MissingUserId := "user_id parameter is required"
  const FetchPostsFailed := "Failed to fetch posts"
  const MissingTopicOrUser := "topic and user_id are required"
  const CreateFailed := "Failed to create post"
  const MissingId := "id is required"
  const UpdateFailed := "Failed to update post"
  const MissingIdParam := "id parameter is required"
  const DeleteFailed := "Failed to delete post"
  const Deleted := "Post deleted successfully"

  /** `!param` is false for a query parameter: it is present and not empty. */
  predicate Present(param: Option<string>) {
    param.Some? && param.value != ""
  }

  /** `GET`: `userId` is `searchParams.get("user_id")`; `backend` is how the
      select ends. */
  function HandleGet(userId: Option<string>, backend: Backend<seq<Post>>): (h: Handled)
    ensures h.call.Some? <==> Present(userId)
    ensures h.call.Some? ==> h.call.value == SelectByUser(userId.value)
    ensures !Present(userId) ==> h.response == Response(400, ErrorBody(MissingUserId))
    ensures h.response.status == 200 <==> Present(userId) && backend.Ok?
    ensures h.response.status == 200 ==> h.response.body == PostsBody(backend.data)
    ensures Present(userId) && backend.Err? ==> h.response == Response(500, ErrorBody(FetchPostsFailed))
    ensures Present(userId) && backend.Threw? ==> h.response == Response(500, ErrorBody(InternalError))
  {
    if !Present(userId) then
      Handled(None, Response(400, ErrorBody(MissingUserId)))
    else
      var call := Some(SelectByUser(userId.value));
      match backend
      case Ok(data) => Handled(call, Response(200, PostsBody(data)))
      case Err(_) => Handled(call, Response(500, ErrorBody(FetchPostsFailed)))
      case Threw => Handled(call, Response(500, ErrorBody(InternalError)))
  }

  /** The row `POST` inserts: `topic` and `user_id` as given, every other
      falsy field turned into `null`. */
  function NormalizedRow(body: JsValue): (row: NewRow)
    requires Destructurable(body)
    ensures row.topic == Prop(body, "topic") && row.userId == Prop(body, "user_id")
    ensures row.tone == OrNull(Prop(body, "tone"))
    ensures row.content == OrNull(Prop(body, "content"))
    ensures row.targetAudience == OrNull(Prop(body, "target_audience"))
    ensures row.targetReaction == OrNull(Prop(body, "target_reaction"))
  {
    NewRow(
      OrNull(Prop(body, "tone")),
      Prop(body, "topic"),
      OrNull(Prop(body, "content")),
      Prop(body, "user_id"),
      OrNull(Prop(body, "target_audience")),
      OrNull(Prop(body, "target_reaction")))
  }

  /** `POST`: `body` is what `request.json()` yields (`None` when it
      throws); `backend` is how the insert ends. */
  function HandlePost(body: Option<JsValue>, backend: Backend<Post>): (h: Handled)
    // a body that cannot be read or destructured is an internal error
    ensures body.None? || !Destructurable(body.value) ==>
      h == Handled(None, Response(500, ErrorBody(InternalError)))
    // a falsy topic or user_id is rejected before any insert
    ensures (body.Some? && Destructurable(body.value) &&
             (!Truthy(Prop(body.value, "topic")) || !Truthy(Prop(body.value, "user_id")))) ==>
      h == Handled(None, Response(400, ErrorBody(MissingTopicOrUser)))
    // otherwise exactly the normalised row is inserted
    ensures h.call.Some? <==> (body.Some? && Destructurable(body.value) &&
                               Truthy(Prop(body.value, "topic")) && Truthy(Prop(body.value, "user_id")))
    ensures h.call.Some? ==> h.call.value == InsertRow(NormalizedRow(body.value))
    ensures h.response.status == 201 <==> h.call.Some? && backend.Ok?
    ensures h.response.status == 201 ==> h.response.body == PostBody(backend.data)
    // an insert error reports its message, or a fixed text when that is empty
    ensures h.call.Some? && backend.Err? ==>
      h.response == Response(500, ErrorBody(if backend.message != "" then backend.message else CreateFailed))
    ensures h.call.Some? && backend.Threw? ==> h.response == Response(500, ErrorBody(InternalError))
  {
    if body.None? || !Destructurable(body.value) then
      Handled(None, Response(500, ErrorBody(InternalError)))
    else
      var b := body.value;
      if !Truthy(Prop(b, "topic")) || !Truthy(Prop(b, "user_id")) then
        Handled(None, Response(400, ErrorBody(MissingTopicOrUser)))
      else
        var call := Some(InsertRow(NormalizedRow(b)));
        match backend
        case Ok(post) => Handled(call, Response(201, PostBody(post)))
        case Err(message) =>
          Handled(call, Response(500, ErrorBody(if message != "" then message else CreateFailed)))
        case Threw => Handled(call, Response(500, ErrorBody(InternalError)))
  }

  /** `PUT`: `body` is what `request.json()` yields; `backend` is how the
      update ends (no matching row makes `.single()` fail, an error like
      any other). */
  function HandlePut(body: Option<JsValue>, backend: Backend<Post>): (h: Handled)
    ensures body.None? || !Destructurable(body.value) ==>
      h == Handled(None, Response(500, ErrorBody(InternalError)))
    ensures body.Some? && Destructurable(body.value) && !Truthy(Prop(body.value, "id")) ==>
      h == Handled(None, Response(400, ErrorBody(MissingId)))
    ensures h.call.Some? <==> body.Some? && Destructurable(body.value) && Truthy(Prop(body.value, "id"))
    // the patch passes every field on as received, undefined ones included
    ensures h.call.Some? ==> h.call.value == UpdateById(Prop(body.value, "id"), Patch(
      Prop(body.value, "tone"), Prop(body.value, "topic"), Prop(body.value, "content"),
      Prop(body.value, "target_audience"), Prop(body.value, "target_reaction")))
    ensures h.response.status == 200 <==> h.call.Some? && backend.Ok?
    ensures h.response.status == 200 ==> h.response.body == PostBody(backend.data)
    ensures h.call.Some? && backend.Err? ==> h.response == Response(500, ErrorBody(UpdateFailed))
    ensures h.call.Some? && backend.Threw? ==> h.response == Response(500, ErrorBody(InternalError))
  {
    if body.None? || !Destructurable(body.value) then
      Handled(None, Response(500, ErrorBody(InternalError)))
    else
      var b := body.value;
      if !Truthy(Prop(b, "id")) then
        Handled(None, Response(400, ErrorBody(MissingId)))
      else
        var patch := Patch(Prop(b, "tone"), Prop(b, "topic"), Prop(b, "content"),
          Prop(b, "target_audience"), Prop(b, "target_reaction"));
        var call := Some(UpdateById(Prop(b, "id"), patch));
        match backend
        case Ok(post) => Handled(call, Response(200, PostBody(post)))
        case Err(_) => Handled(call, Response(500, ErrorBody(UpdateFailed)))
        case Threw => Handled(call, Response(500, ErrorBody(InternalError)))
  }

  /** `DELETE`: `id` is `searchParams.get("id")`; `backend` is how the delete
      ends. Success does not depend on whether a row matched. */
  function HandleDelete(id: Option<string>, backend: Backend<()>): (h: Handled)
    ensures h.call.Some? <==> Present(id)
    ensures h.call.Some? ==> h.call.value == DeleteById(id.value)
    ensures !Present(id) ==> h.response == Response(400, ErrorBody(MissingIdParam))
    ensures h.response.status == 200 <==> Present(id) && backend.Ok?
    ensures h.response.status == 200 ==> h.response.body == MessageBody(Deleted)
    ensures Present(id) && backend.Err? ==> h.response == Response(500, ErrorBody(DeleteFailed))
    ensures Present(id) && backend.Threw? ==> h.response == Response(500, ErrorBody(InternalError))
  {
    if !Present(id) then
      Handled(None, Response(400, ErrorBody(MissingIdParam)))
    else
      var call := Some(DeleteById(id.value));
      match backend
      case Ok(_) => Handled(call, Response(200, MessageBody(Deleted)))
      case Err(_) => Handled(call, Response(500, ErrorBody(DeleteFailed)))
      case Threw => Handled(call, Response(500, ErrorBody(InternalError)))
  }

  /** A 400 comes without a database call, and the status is one of the
      four the handlers use. */
  predicate Disciplined(h: Handled) {
    (h.response.status == 400 ==> h.call.None?) && h.response.status in {200, 201, 400, 500}
  }

  /** Across the four handlers: a 400 never comes with a database call,
      and no status other than 200, 201, 400 and 500 is ever sent. */
  lemma StatusDiscipline(
    userId: Option<string>, id: Option<string>, body: Option<JsValue>,
    many: Backend<seq<Post>>, one: Backend<Post>, none: Backend<()>)
    ensures Disciplined(HandleGet(userId, many)) && Disciplined(HandlePost(body, one))
    ensures Disciplined(HandlePut(body, one)) && Disciplined(HandleDelete(id, none))
  {
  }

  /** A backend that throws never yields a success status; where the
      parameters are present it is always the same internal error. */
  lemma ThrowingBackendNeverSucceeds(userId: Option<string>, id: Option<string>, body: Option<JsValue>)
    ensures HandleGet(userId, Threw).response.status != 200 && HandlePost(body, Threw).response.status != 201
    ensures Present(userId) ==> HandleGet(userId, Threw).response == Response(500, ErrorBody(InternalError))
    ensures Present(id) ==> HandleDelete(id, Threw).response == Response(500, ErrorBody(InternalError))
    ensures HandlePost(body, Threw).response.status in {400, 500}
    ensures HandlePut(body, Threw).response.status in {400, 500}
  {
  }

  /** A create request with only a topic and a user id inserts a row whose
      other fields are all `null`. */
  lemma CreateWithDefaults()
    ensures HandlePost(Some(Obj([("topic", Str("Remote work")), ("user_id", Str("u1"))])), Threw).call ==
      Some(InsertRow(NewRow(Null, Str("Remote work"), Null, Str("u1"), Null, Null)))
  {
    var b := Obj([("topic", Str("Remote work")), ("user_id", Str("u1"))]);
    assert Prop(b, "topic") == Str("Remote work");
    assert Prop(b, "user_id") == Str("u1");
    assert Prop(b, "tone") == Undefined;
    assert Prop(b, "content") == Undefined;
    assert Prop(b, "target_audience") == Undefined;
    assert Prop(b, "target_reaction") == Undefined;
  }

  /** `GET` served from the table: a missing `user_id` is a 400, otherwise a
      200 listing exactly the user's rows, newest first. */
  method ServeGet(table: PostsTable, userId: Option<string>) returns (h: Handled)
    ensures !Present(userId) ==> h.call.None? && h.response.status == 400
    ensures Present(userId) ==> (h.response.status == 200 && h.response.body.PostsBody? &&
                                 IsListing(table.rows, userId.value, h.response.body.posts))
  {
    if !Present(userId) {
      h := HandleGet(userId, Threw);
    } else {
      var data := table.Select(userId.value);
      h := HandleGet(userId, Ok(data));
    }
  }

  /** `POST` served by the table, with the id and the time the database
      assigns. A 201 means the table grew by exactly the normalised row. */
  method ServePost(table: PostsTable, body: Option<JsValue>, id: string, now: int) returns (h: Handled)
    requires table.Valid()
    modifies table
    ensures table.Valid()
    ensures h.response.status == 201 ==>
      body.Some? && Destructurable(body.value) &&
      var post := Post(id, now, NormalizedRow(body.value));
      table.rows == old(table.rows) + [post] && h.response.body == PostBody(post)
    ensures h.response.status != 201 ==> table.rows == old(table.rows)
    // the insert is attempted exactly when the handler's validation passes,
    // and it succeeds exactly when the id is fresh
    ensures h.call == HandlePost(body, Threw).call
    ensures h.call.None? ==> h == HandlePost(body, Threw) && table.rows == old(table.rows)
    ensures h.call.Some? ==> (h.response.status == 201 <==> id !in Ids(old(table.rows)))
    ensures h.call.Some? && id in Ids(old(table.rows)) ==>
      h.response == Response(500, ErrorBody(DuplicateKeyError))
  {
    h := HandlePost(body, Threw);
    if h.call.Some? {
      var row := NormalizedRow(body.value);
      var outcome := table.Insert(row, id, now);
      h := HandlePost(body, outcome);
    }
  }

  /** `DELETE` served by the table: with an id, the matching rows are gone
      and the answer is 200 whether or not one existed. */
  method ServeDelete(table: PostsTable, id: Option<string>) returns (h: Handled)
    requires table.Valid()
    modifies table
    ensures table.Valid()
    ensures Present(id) ==> (h.response == Response(200, MessageBody(Deleted)) &&
                             table.rows == Without(old(table.rows), id.value))
    ensures !Present(id) ==> h.response.status == 400 && table.rows == old(table.rows)
  {
    if !Present(id) {
      h := HandleDelete(id, Threw);
    } else {
      table.Delete(id.value);
      h := HandleDelete(id, Ok(()));
    }
  }
}
