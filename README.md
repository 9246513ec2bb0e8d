# LinkedIn post generator: a Dafny model of its decision logic

This web application lets a signed-in user generate LinkedIn-style posts through a hosted
chat model and keep them in a hosted `posts` table. Most of it is UI and plumbing over
hosted services. The decisions it makes on its own are modelled and proved here:

- **Password policy and sign-up.** The policy is five character-class checks and their
  conjunction. Sign-up is an ordered gate:
  1. the passwords must match;
  2. the password must be strong;
  3. the email must not already have an account;
  4. only then is the auth provider's `signUp` called.

  The submit button is enabled on the same checks.
- **Prompt builder.** The fixed header and four labelled field lines come first. The
  existing-content section is added only when the content is not blank after `trim()`.
  The fixed closing instructions come last.
- **Client call.** A non-ok reply, or any failure, throws one fixed error. An ok reply
  returns `generatedText` as it is.
- **`POST /api/generate-post`.** It sends the prompt as one user message to the model,
  returns the text of the first content segment, and returns the fallback sentence when
  there is no usable text.
- **`/api/posts`.** The handlers `GET`, `POST`, `PUT` and `DELETE` each validate the
  request, make at most one database call and map its outcome to a status and a body.
  - `POST` turns falsy optional fields into `null`.
  - The `posts` table is a class over a sequence of rows, with the three operations the
    handlers rely on: an owner-filtered select in newest-first order, an insert and a
    delete.
- **`POST /api/check-email`.** It validates the email and maps the query outcome to an
  `exists` flag and a status.

Calls to the database, the auth provider, `fetch` and the chat model are parameters. Each
is an outcome `Ok(data) | Err(message) | Threw`, or a small datatype of its own. Every
handler returns the call it made, if any, beside its response. This is what lets "a 400
makes no database call" be stated.

JavaScript semantics the code depends on are modelled explicitly:

- truthiness, `x || null`, and property access that throws on `null` and `undefined`;
- duplicate JSON keys, where the last one wins;
- `.length` counting UTF-16 code units;
- `trim()` using the ECMAScript WhiteSpace and LineTerminator characters.

Files:

| file | module | contents |
|---|---|---|
| `js.dfy` | `JsValues`, `JsStrings` | JavaScript values and string operations |
| `http.dfy` | `Http` | backend outcomes and responses |
| `password.dfy` | `PasswordPolicy` | the password policy |
| `signup.dfy` | `SignUp` | the sign-up page |
| `cohere_client.dfy` | `CohereClient` | the prompt builder and client call |
| `generate_post.dfy` | `GeneratePost` | the generation route |
| `posts.dfy` | `Posts` | the table |
| `posts_route.dfy` | `PostsRoute` | the posts handlers |
| `check_email.dfy` | `CheckEmail` | the email route |

Three behaviours of the code are worth knowing:

- **The page's email check.** The sign-up page's own REST lookup returns `false` both on
  a failed request and on an exception. A backend failure therefore reads as "no such
  account" (`SignUp.BackendErrorLooksLikeNotFound`). The `/api/check-email` route answers
  500 instead.
- **Number of matches.** `exists` is true for any non-empty result, on the page and in
  the route alike.
- **Deleting a missing id.** Deleting an id that matches no row answers 200, the same as
  deleting one that does (`PostsRoute.ServeDelete`).

## Model

| member | source | states |
|---|---|---|
| PasswordPolicy.Test | app/src/app/signup/page.tsx:20-23 | `/[class]/.test(s)` is true iff some character of `s` lies in the class |
| PasswordPolicy.ValidatePassword | app/src/app/signup/page.tsx:18-33 | `minLength` iff the UTF-16 length is at least 8; each class flag iff some character is in `a-z`, `A-Z`, `0-9` or the symbol set; `isValid` iff all five flags hold, so any one false flag makes it false |
| PasswordPolicy.SymbolsAreAsciiPunctuationButBacktickAndTilde | app/src/app/signup/page.tsx:23 | a character is in the symbol class iff it is printable ASCII punctuation other than backtick and tilde |
| PasswordPolicy.BacktickAndTildeAreNoSymbols | app/src/app/signup/page.tsx:23-26 | a password of letters, digits, backticks and tildes never has a symbol and is never valid, whatever its length |
| PasswordPolicy.ExampleValid | app/src/app/signup/page.tsx:18-33 | "Abcdef1!" passes the policy |
| PasswordPolicy.ExampleTooShort | app/src/app/signup/page.tsx:19 | "Abcde1!" (seven characters) fails the length check |
| PasswordPolicy.ExampleTildeIsNoSymbol | app/src/app/signup/page.tsx:23-26 | "Abcdef1~" is not valid: a tilde is not a symbol |
| JsStrings.Utf16Length | app/src/app/signup/page.tsx:19 | `.length` lies between the number of characters and twice that |
| JsStrings.Utf16LengthOfBmp | app/src/app/signup/page.tsx:19 | on the Basic Multilingual Plane `.length` is the number of characters |
| JsStrings.Utf16LengthCountsAstralTwice | app/src/app/signup/page.tsx:19 | a character beyond the Basic Multilingual Plane counts two towards `.length` |
| JsStrings.TrimStart | app/src/app/lib/cohereClient.ts:21 | the result is a suffix; only whitespace was dropped; it does not start with whitespace |
| JsStrings.TrimEnd | app/src/app/lib/cohereClient.ts:21 | the result is a prefix; only whitespace was dropped; it does not end with whitespace |
| JsStrings.Trim | app/src/app/lib/cohereClient.ts:21 | `trim()` gives the infix surrounded only by whitespace, with no whitespace at either end; it is empty iff the string is entirely whitespace |
| SignUp.CheckEmailExists | app/src/app/signup/page.tsx:35-60 | true iff the response was ok and listed at least one row; a failed request and an exception give false |
| SignUp.BackendErrorLooksLikeNotFound | app/src/app/signup/page.tsx:49-58 | a non-ok response, an exception and an empty result all give the same answer, false |
| SignUp.SignUpOutcome | app/src/app/signup/page.tsx:63-119 | mismatched passwords give "Passwords do not match"; a weak password gives the requirements error; the lookup runs iff both checks pass; an existing account gives the sign-in notice; `signUp` is called iff every gate passed, with the form's email and password; the confirmation text appears iff the provider accepted, and the provider's error when it refused; the form stays busy, with both slots cleared, iff `signUp` was called and rejected |
| SignUp.SignUpForm.HandleSignUp | app/src/app/signup/page.tsx:63-119 | `loading` ends false on every exit except a rejected `signUp`, which skips the final reset; the message slots and the two calls are as `SignUpOutcome` gives for the form's fields |
| SignUp.SubmitEnabled | app/src/app/signup/page.tsx:271 | an enabled button means not loading, passwords equal and at least 8 UTF-16 units |
| SignUp.SubmitEnabledIffClientChecksPass | app/src/app/signup/page.tsx:70-85 | the button is enabled iff the form is idle and `handleSignUp` would reach the email lookup; an idle form whose button is disabled stops at the mismatch or weak-password error |
| CohereClient.HasExistingContent | app/src/app/lib/cohereClient.ts:21 | `content && content.trim()` holds iff the content is defined and has a non-whitespace character |
| CohereClient.BuildPrompt | app/src/app/lib/cohereClient.ts:12-27 | the prompt starts with the header and the Tone, Target Reaction, Topic and Target Audience lines and ends with the closing instructions; the section is present iff the content is not blank, and then reads back as the untrimmed content placed between them; otherwise the prompt is exactly fields plus closing |
| CohereClient.FramedPrompt | app/src/app/lib/cohereClient.ts:14-27 | fields + section + closing is framed by the fields and the closing, and reads back as the section's text exactly when the section starts with the marker |
| CohereClient.InterpretReply | app/src/app/lib/cohereClient.ts:29-48 | a rejected fetch, a non-ok response or an unreadable body throws "Failed to generate LinkedIn post"; otherwise `data.generatedText` is returned unchanged |
| CohereClient.GenerateLinkedInPost | app/src/app/lib/cohereClient.ts:9-48 | the request body is `{ prompt }` alone; its `prompt` starts with the header and field lines and ends with the closing instructions; it is exactly those two when the content is blank, and carries the untrimmed content section iff the content is not blank; the outcome throws the one fixed error iff the reply was not an ok, readable body, and otherwise returns `generatedText` |
| CohereClient.ClientOverRoute | app/src/app/lib/cohereClient.ts:29-48 | together with the route, the model receives exactly the sent prompt, and the client returns the extracted text (fallback included) or throws its fixed error when the model call threw |
| GeneratePost.ChatRequestFor | app/src/app/api/generate-post/route.ts:22-30 | the model is `command-a-03-2025` and the request has exactly one message, in the user role, holding the prompt |
| GeneratePost.ExtractGeneratedText | app/src/app/api/generate-post/route.ts:32-41 | the text is never empty; it is the fallback sentence or the first segment's text, and it is the first segment's text whenever that is truthy |
| GeneratePost.OnlyFirstSegmentCounts | app/src/app/api/generate-post/route.ts:33-36 | two non-empty segment arrays with the same first segment give the same text |
| GeneratePost.FallbackIsAmbiguous | app/src/app/api/generate-post/route.ts:33-41 | a reply whose first text is the fallback sentence cannot be told apart from no content, an empty array, a missing text or an empty text |
| GeneratePost.HandlePost | app/src/app/api/generate-post/route.ts:17-50 | the model is called iff the body can be destructured, with the prompt it holds; the status is 500 with the fixed error iff the body is unreadable or the call threw; otherwise 200 with the extracted text |
| GeneratePost.MissingContentIsNotAnError | app/src/app/api/generate-post/route.ts:39-41 | missing or empty content gives 200 with the fallback sentence |
| JsValues.OrNull | app/src/app/api/posts/route.ts:70-75 | the `or null` default keeps a truthy value and turns every falsy one (`undefined`, `null`, `false`, `0`, `""`) into `null` |
| JsValues.FalsyValuesDefaultToNull | app/src/app/api/posts/route.ts:70-75 | the empty string, zero, `false`, `undefined` and `null` all default to `null` |
| JsValues.Lookup | app/src/app/api/posts/route.ts:54-55 | an absent key reads `undefined`; otherwise the value of the last member with that key |
| JsValues.Prop | app/src/app/api/posts/route.ts:54-55 | destructuring a non-null value reads the member of an object and `undefined` on any other value |
| PostsRoute.HandleGet | app/src/app/api/posts/route.ts:14-48 | a missing or empty `user_id` is 400 with no query; otherwise the select by that user is made; 200 with the rows iff it succeeded, 500 "Failed to fetch posts" on an error, 500 "Internal server error" when it threw |
| PostsRoute.NormalizedRow | app/src/app/api/posts/route.ts:69-76 | `topic` and `user_id` as given; `tone`, `content`, `target_audience` and `target_reaction` each turned into `null` when falsy |
| PostsRoute.HandlePost | app/src/app/api/posts/route.ts:51-99 | an unreadable body is 500 "Internal server error"; a falsy topic or user id is 400 with no insert; otherwise exactly the normalised row is inserted; 201 with the post iff it succeeded; an insert error is 500 with its message, or "Failed to create post" when that is empty |
| PostsRoute.HandlePut | app/src/app/api/posts/route.ts:102-135 | a falsy `id` is 400 with no update; otherwise the update by that id passes the five fields on as received; 200 with the post iff it succeeded; 500 "Failed to update post" on an error |
| PostsRoute.HandleDelete | app/src/app/api/posts/route.ts:138-168 | a missing or empty `id` is 400 with no call; otherwise the delete by id; 200 "Post deleted successfully" iff it succeeded, whether or not a row matched; 500 "Failed to delete post" on an error |
| PostsRoute.StatusDiscipline | app/src/app/api/posts/route.ts:14-168 | across the four handlers a 400 never comes with a database call, and the status is always 200, 201, 400 or 500 |
| PostsRoute.ThrowingBackendNeverSucceeds | app/src/app/api/posts/route.ts:41-47 | a thrown exception never gives a success status; with the parameter present it is always 500 "Internal server error" |
| PostsRoute.CreateWithDefaults | app/src/app/api/posts/route.ts:59-76 | a body with only a topic and a user id inserts a row with `null` in every other field |
| PostsRoute.ServeGet | app/src/app/api/posts/route.ts:26-40 | with the table standing in for the database, a 200 lists exactly the user's rows, newest first |
| PostsRoute.ServePost | app/src/app/api/posts/route.ts:59-91 | the insert is attempted exactly when the handler's validation passes (truthy `topic` and `user_id`); when it fails, the response is the handler's 400 (or 500 for an unreadable body) and the table is unchanged; it then answers 201 iff the assigned id is fresh, and a 201 means the table grew by exactly the normalised row with its id and time; a clashing id answers 500 with the database's error; any status but 201 leaves the table unchanged |
| PostsRoute.ServeDelete | app/src/app/api/posts/route.ts:143-160 | with an id, the matching rows are gone and the answer is 200 whether or not one existed; without one, 400 and the table unchanged |
| Posts.Owned | app/src/app/api/posts/route.ts:29 | `.eq("user_id", userId)` keeps exactly the rows owned by the user |
| Posts.OwnedKeepsEachRowOnce | app/src/app/api/posts/route.ts:29 | each of the user's rows is kept as many times as the table holds it, and no other row is kept |
| Posts.InsertNewestFirst | app/src/app/api/posts/route.ts:30 | inserting into a newest-first list keeps it newest first and adds exactly the one row |
| Posts.Without | app/src/app/api/posts/route.ts:150 | `.delete().eq("id", id)` removes exactly the rows with that id |
| Posts.WithoutKeepsEachRowOnce | app/src/app/api/posts/route.ts:150 | each row with another id is kept as many times as the table holds it, and no row with that id remains |
| Posts.PostsTable.Select | app/src/app/api/posts/route.ts:26-30 | the result is a permutation of the user's rows, ordered by `created_at` descending |
| Posts.PostsTable.Insert | app/src/app/api/posts/route.ts:66-79 | a fresh id appends the row with its id and time and returns it; a clashing id is an error and leaves the table as it was; ids stay unique |
| Posts.PostsTable.Delete | app/src/app/api/posts/route.ts:150 | the table becomes the rows whose id differs; deleting an absent id changes nothing; ids stay unique |
| Posts.WithoutKeepsUniqueIds | app/src/app/api/posts/route.ts:150 | removing rows keeps ids unique |
| Posts.WithoutAbsentId | app/src/app/api/posts/route.ts:150 | deleting an id that is not present leaves the rows unchanged |
| Posts.ListingHoldsOnlyOwnRows | app/src/app/api/posts/route.ts:26-30 | a listing holds only rows of the table owned by the user |
| Posts.ListingHoldsEveryOwnRow | app/src/app/api/posts/route.ts:26-30 | every row of the user appears in the listing |
| Posts.DeletedPostIsNotListed | app/src/app/api/posts/route.ts:150 | after a delete, no listing shows the deleted id |
| Posts.CreatedPostIsListed | app/src/app/api/posts/route.ts:66-79 | after an insert, the new row is listed for its owner |
| CheckEmail.HandlePost | app/src/app/api/check-email/route.ts:13-36 | a falsy email is 400 "Email is required" with no query; a failed or thrown query is 500 `{exists: false}`; 200 iff the query succeeded, with `exists` true iff some row matched |
| CheckEmail.RouteAndPageAgree | app/src/app/api/check-email/route.ts:21-31 | the route and the page's own lookup give the same answer on every successful query; on a failed query the route answers 500 and the page answers a plain false |

## Left out

- The auth provider's calls (`signUp` and the login, session and sign-out calls). They are
  foreign services. How `signUp` ends (accepted, refused with a message, or rejected) is an
  input of `SignUp.SignUpOutcome`. Everything else about them is not part of this model.
- Lone surrogates. A JavaScript string can hold an unpaired UTF-16 surrogate, and a Dafny
  `string` cannot. Strings holding one are outside the model of `.length`, `trim()` and the
  password checks.
- The wording of the database's duplicate-key error. `Posts.DuplicateKeyError` is an
  illustrative text: only the fact that a clash is an error is modelled.
- The login page, the home page, the root page, the post-generator page, the side menu, the
  post-generator component and the welcome page. They are loading and message setters
  around auth calls, redirect shells, rendering, or static markup. The login page also
  puts its success text into the error slot (app/src/app/login/page.tsx:44).
- Network access, the chat-model SDK, JSON parsing and environment-variable checks. Each
  appears only as the outcome it yields: a parsed body or `None`, `Ok`, `Err` or `Threw`.
- `console` logging, React state hooks and rendering. The sign-up form's state is a class
  whose fields stand for the hooks. The password-visibility toggles are not modelled.
- The JSX of the "account already exists" notice. It is the single value
  `AccountExistsNotice`.
- The URL of the page's REST lookup, including the email being spliced unencoded into the
  query string. The lookup is modelled by its outcome only.
- An ok lookup response whose JSON is not an array: `(data.length > 0)` on such a value is
  not modelled. The response is modelled as a list of rows.
- How the database applies an update (whether `undefined` fields are skipped) and how it
  breaks ties in `created_at`. These belong to the hosted database. `PUT` is modelled up
  to the call it makes, and the listing allows any order among equal timestamps.
- `PostsRoute.ServeGet`: it models only the successful select on the table. Errors of the
  hosted select are covered by `PostsRoute.HandleGet` over the backend outcome.
- JSON numbers are modelled as reals, not doubles. The handlers only test them for
  truthiness.
