# Sign-in front-end: credential store, validation and request logic

This project is a Dafny model of the logic core of a small browser sign-in front-end written in TypeScript:

- **Credential store** (`src/config.ts`). It holds two in-memory token slots mirrored into the browser's durable key/value storage. Reads hydrate the slots lazily.
- **Auth client** (`src/api.ts`). It maps HTTP responses to results or `ApiError`s. Refresh and user-fetch calls short-circuit when a token is missing, and a refresh writes the new tokens back into the store.
- **View controller** (`src/main.ts`). It holds the email and password validators, the guard chain of the submit handler, and the state machine over form mode, loading flag, rendered view and store.

The network is an oracle `net: Request -> Delivery<T>`. It maps the request a call issues to what `fetch` delivers: a response (`ok`, `status`, a body that is either a JSON syntax error or a decoded object with an optional `message`) or a transport failure. Every call reports the request it sent. `None` means nothing went on the wire.

Modules:

| module | file | models |
|---|---|---|
| `Wrappers` | wrappers.dfy | `Option`, `Result` |
| `JsText` | js_text.dfy | ECMAScript whitespace and line-terminator classes; `String.prototype.trim` |
| `Decimal` | decimal.dfy | printing a status code in decimal inside a template literal |
| `Config` | config.dfy | the token store |
| `Validation` | validation.dfy | the two regular-expression validators |
| `Api` | api.dfy | `handleResponse` and the four request functions |
| `App` | app.dfy | the view controller as an event-driven state machine |

Each regular expression is first read literally. For the email pattern, that means a split of the input into the runs the pattern names. The model then gives a declarative characterisation and proves that the two agree:

- An email is accepted iff it has no whitespace, exactly one `@`, a non-empty part before it, and a `.` inside the part after it that is neither that part's first nor its last character.
- A password is accepted iff it has at least 8 characters, contains an ASCII lowercase letter, an ASCII uppercase letter and an ASCII digit, and has no line terminator.

The submit handler is split at its `await`:

- `Submit` runs the guards and issues the request.
- `Reply` runs the continuation when the answer arrives.

Other events may run in between, just as the single-threaded event loop allows. The success banner reads the mode when the reply arrives. So switching to sign-up while a sign-in request is pending makes the page report "Successfully signed up!" (`App.BannerFollowsCurrentMode`). The delayed switch to the success screen (the one-second `setTimeout`) is a counted pending timer (`App.WelcomeTimer`).

## Model

| member | source | states |
|---|---|---|
| `Config.SetTokens` | src/config.ts:36-42 | both storage keys hold the new tokens and all other keys are untouched; both getters then return the new tokens, even after a page load empties memory |
| `Config.GetAccessToken` | src/config.ts:44-49 | storage is read only when the memory slot is empty, and then the value is what storage holds under `access_token`, or `""` when the key is absent; the slot caches the returned value; the refresh slot and storage are untouched |
| `Config.GetRefreshToken` | src/config.ts:51-56 | the same lazy hydration for the refresh slot from `refresh_token`, touching neither the access slot nor storage |
| `Config.GettersIdempotent` | src/config.ts:44-56 | a second read returns the same value and store; reading one token does not change what the other getter returns |
| `Config.ClearTokens` | src/config.ts:58-63 | both slots are empty, both keys are removed and all other keys are untouched; afterwards both getters return `""` and `isAuthenticated` is false, also after a page load |
| `Config.IsAuthenticated` | src/config.ts:65-67 | true exactly when the access getter returns a non-empty token; on a coherent store, exactly when storage holds a non-empty access token |
| `JsText.Trim` | src/main.ts:71 | the result has no whitespace at either end, sits inside the input with only whitespace around it, and is empty exactly when the input is all whitespace |
| `JsText.TrimUnique` | src/main.ts:71 | any unpadded infix surrounded only by whitespace is the trimmed value |
| `JsText.TrimIgnoresPadding` | src/main.ts:71 | whitespace added on either side does not change the trimmed value |
| `Validation.ValidateEmailCharacterisation` | src/main.ts:52-55 | the email pattern accepts a string iff it has no whitespace, exactly one `@` with a non-empty part before it, and an inner `.` after it |
| `Validation.ValidatePasswordCharacterisation` | src/main.ts:57-61 | the password pattern accepts a string iff it has length 8 or more, an ASCII lowercase letter, an ASCII uppercase letter and a digit, and no line terminator |
| `Decimal.Digits` | src/api.ts:15 | the printed status is a non-empty string of decimal digits with no leading zero (a leading `0` only in `"0"` itself) |
| `Decimal.DigitsCanonical` | src/api.ts:15 | every non-empty digit string without a leading zero is the printing of its own value, so the printing is the only such rendering of a number |
| `Decimal.ValueOfDigits` | src/api.ts:15 | reading the printed digits back gives the status |
| `Decimal.DigitsInjective` | src/api.ts:15 | different statuses print differently |
| `Api.ErrorMessage` | src/api.ts:15-21 | the message is the body's `message` when the body parsed and the message is truthy; otherwise it is `HTTP error! status: ` followed by exactly the printed status, digits that read back as the status and carry no leading zero; it is never empty |
| `Api.HandleResponse` | src/api.ts:13-25 | resolves with the decoded body exactly when the response is ok with a JSON body; rejects with an `ApiError` carrying exactly the status exactly when the response is not ok; an ok non-JSON body rejects with its syntax error |
| `Api.SignIn` | src/api.ts:28-37 | sends one POST of the credentials to `/auth/signin` and settles as `handleResponse` does on the reply (a transport failure rejects with its reason); resolves exactly when the reply is ok with a JSON body, and then with that body |
| `Api.SignUp` | src/api.ts:39-48 | sends one POST of the credentials to `/auth/signup` and settles as `handleResponse` does on the reply, with the same resolution rule |
| `Api.RefreshToken` | src/api.ts:50-67 | with no refresh token, rejects with 401 "No refresh token available" and sends nothing; otherwise posts that token and resolves exactly when the reply is ok with a JSON body, with that body; only then are the returned tokens written back, so a failure leaves storage and both observed tokens unchanged |
| `Api.GetUserDetails` | src/api.ts:69-84 | with no access token, rejects with 401 "No access token available" and sends nothing; otherwise sends a GET with `Authorization: Bearer <token>` and resolves exactly when the reply is ok with a JSON body, with that body; it sends a request exactly when `isAuthenticated` holds, and it never writes storage |
| `Api.ApiErrorsHaveMessages` | src/api.ts:13-25 | every `ApiError` thrown by these calls has a non-empty message |
| `App.CheckForm` | src/main.ts:71-88 | input passes iff the trimmed email is well formed and the untrimmed password is strong; guard order: empty field, then email, then password, and the first failure decides the message |
| `App.EmailIsTrimmed` | src/main.ts:71-72 | whitespace around the email input never changes the guard outcome |
| `App.Submit` | src/main.ts:63-93 | ignored while loading or when no form is shown; a sent request is the one for the current mode, with the trimmed email and the verbatim password, and it sets the loading flag; when nothing is sent the loading state is kept; the store and mode are untouched |
| `App.SubmitFollowsGuards` | src/main.ts:66-93 | on the idle form, a request is sent exactly when the guards pass; otherwise the first failing guard's message is shown and nothing else changes |
| `App.InvalidInputSendsNothing` | src/main.ts:80-88 | input failing either validator sends nothing and stores nothing, in sign-in mode as well as sign-up mode |
| `App.ShownError` | src/main.ts:116 | the banner shows the error's message, or "Sign in failed"/"Sign up failed" when that message is empty |
| `App.Reply` | src/main.ts:96-119 | on success the store's observed tokens are exactly those returned, the success banner is shown and the success screen is scheduled; on failure nothing is stored and the error banner is shown; the loading flag ends false either way |
| `App.AuthRequestIsApiCall` | src/main.ts:96-100 | the request a submit leaves in flight, and what `Reply` makes of the answer, are exactly the `sent` and `result` of `api.signIn` or `api.signUp` for the mode |
| `App.BannerFollowsCurrentMode` | src/main.ts:96-103 | a sign-in request followed by a mode switch before the reply reports "Successfully signed up!" |
| `App.RenderSuccessScreen` | src/main.ts:131-217 | shows the success screen, with the fetched user's details exactly when `getUserDetails` resolves and the error panel otherwise; the only request sent is `getUserDetails`'s, so one exactly when authenticated; storage, mode, loading state and pending timers are unchanged |
| `App.WelcomeTimer` | src/main.ts:110-112 | a pending delayed render is consumed and does exactly what `renderSuccessScreen` does, nothing more; with none pending nothing happens |
| `App.SwitchMode` | src/main.ts:122-125 | on the form, the button flips the mode and re-renders a blank form, leaving everything else as it was |
| `App.SwitchModeTwice` | src/main.ts:299-301 | two clicks restore the mode |
| `App.SignOut` | src/main.ts:219-223 | on the success screen, clears the tokens (no longer authenticated) and returns to a blank sign-in form; nothing else changes, so neither a pending delayed render nor an awaited sign-in reply is cancelled |
| `App.Start` | src/main.ts:309-314 | the first screen is the success screen iff storage holds a non-empty access token, and then the only request sent is `getUserDetails`'s on the loaded store, the panel shows the user it returns or the error panel, and no timer or sign-in reply is pending; otherwise it is a blank sign-in form |
| `App.StepKeepsConsistent` | src/main.ts:35-36 | every event keeps two facts: the loading flag is set exactly while a sign-in/sign-up reply is awaited, and token memory agrees with storage |
| `App.OneAuthRequestAtATime` | src/main.ts:66 | a sign-in or sign-up request is sent only when none is awaited |
| `App.SignInScenario` | src/main.ts:96-112 | signing in as `a@b.com` / `Abcdef12` against a server answering `t1`/`r1` stores those tokens, shows "Successfully signed in!" and, once the timer fires, the success screen |

## Left out

- DOM templating, element lookups, focus handling and the `disabled` state of inputs. A button or form that is not on screen cannot fire, so its event leaves the state unchanged in the model.
- Browser constraint validation of the form (`src/main.ts:239-265`): both inputs are `required` and the email input has `type="email"`. Before `submit` fires, the browser strips ASCII whitespace from the email value and blocks an empty field or an email outside HTML's email grammar. None of this is modelled: `Submitted` carries arbitrary strings, which over-approximates what the page delivers to `handleSubmit`. In the page as rendered, the "Please fill in all fields" guard (`src/main.ts:75-78`) therefore cannot fire; the model states the guard chain as the handler alone implements it.
- The values typed into the form are not state: `Submit` takes them as arguments, so clearing the inputs after a successful reply (`src/main.ts:106-107`) has nothing to act on.
- The 5-second and 3-second timers that hide banners: a banner stays in the state until the next re-render.
- `fetch`, the HTTP transport, the API base URL (`config.apiUrl` and `import.meta.env`) and the `Content-Type` header: the network is the oracle described above, and request paths are relative to the base URL.
- The fetch of user details inside `renderSuccessScreen` and its loading spinner: treated as one atomic step.
- `formatDate` (uses `Date` and locale formatting), `console` logging, and the CSS and version imports.
- `Api.HandleResponse`: a `message` field is modelled as a string. A non-string truthy value (a number, an object) would be stringified by `Error`, and that is not modelled. A reply body that does not decode to the expected shape is not modelled either: the oracle returns a typed body.
- `Validation.ValidatePasswordCharacterisation`: length is counted in Dafny `char`s (Unicode scalar values), not in UTF-16 code units as JavaScript counts. A character outside the Basic Multilingual Plane can be written and counts once, where JavaScript counts two code units. So the model and the source disagree on such inputs: `"Abc1\U{1F600}\U{1F600}"` is 6 characters and rejected in the model, but 8 code units and accepted by the pattern at `src/main.ts:59` (`Validation.AstralCharactersCountOnce`). A lone surrogate code unit, which a JavaScript string may hold, cannot be represented at all.
- `Config.SetTokens`, `Config.ClearTokens`: durable storage is a total map whose operations never throw. In the source, `setItem` can throw (quota exceeded, storage disabled) at `src/config.ts:40-41` after the memory slots were overwritten at lines 37-38; in `handleSubmit` that throw would reach the catch at `src/main.ts:114-116` and leave memory out of step with storage. That path is not modelled, so `App.StepKeepsConsistent` promises coherence only for storage that never throws.
- Changes to storage made by other tabs are not modelled; storage changes only through the store's own operations.
