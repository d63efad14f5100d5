# Role-based access control admin front end, modelled in Dafny

This project models the client side of the RBAC admin application
(`rbac_frontend`). That is a React single-page app which signs an
administrator in against a REST backend and lets them manage users, roles
and permissions. The model covers five pieces:

- **the API client** (`src/services/api.js`). It builds each request's URL
  and headers, with a bearer token when one is stored. It classifies each
  response: 204, empty body, JSON parse failure, ok, or not ok with a failure
  message chosen from `message`, `detail` or the status text. It also
  defines one endpoint per REST operation (module `Api`).
- **the authentication provider** (`src/auth/AuthContext.js`). It holds the
  session: stored token, current user and the `initializing` flag. It has
  three transitions: the mount-time bootstrap, `login` and `logout` (module
  `Session`).
- **the route guard and route table** (`src/App.js`), in module `Routing`.
- **the login page** (`src/pages/LoginPage.js`). It picks where to go after
  signing in and runs the busy/error/navigate lifecycle of a submission
  (module `LoginPage`).
- **the three management pages** (`src/pages/UsersPage.js`, `RolesPage.js`,
  `PermissionsPage.js`). Each handler is one transition of the page state.
  It also yields the API calls it issues, in order (modules `UsersPage`,
  `RolesPage` and `PermissionsPage`). The three pages share one engine,
  module `Crud`.

JavaScript semantics the code relies on are written out in two modules:

- `JsValue`: JSON values, truthiness, `||` fallbacks, optional chaining,
  `String(v)` and `Array.prototype.join`.
- `JsNumber`: `String(n)` and `Number(s)` for integers.

Everything the code gets from the outside world is a parameter:

- what `fetch` produces, and whether `res.text()` reads the body or rejects;
- what `JSON.parse` makes of a body;
- the value `localStorage` holds;
- how each API call settles;
- the answer to `window.confirm`.

A handler that awaits a call takes that call's outcome as a parameter. The
`load()` that a handler starts without awaiting it appears as the list
requests at the end of the handler's call trace. Its completion is the
separate `LoadDone` transition.

Two behaviours of the code are easy to miss. First, `request` parses the
body before it checks `res.ok`. So a non-ok response whose body is not JSON fails with the parser's error
message, not with the status text (`Api.Classify`). Second, the guard tests
only `user`, never `initializing`. So while a stored token is being checked,
guarded paths redirect to the login page (`Routing.PendingTokenRedirects`).

## Model

| member | source | states |
|---|---|---|
| Api.ApiBase | rbac_frontend/src/services/api.js:1 | The base URL is the configured value, or empty when none is configured. |
| Api.Headers | rbac_frontend/src/services/api.js:4-9 | The headers hold `Content-Type: application/json`, plus `Authorization: Bearer <token>` exactly when the stored token is a non-empty string. Caller headers override both. No other keys appear. |
| Api.Classify | rbac_frontend/src/services/api.js:11-18 | 204 succeeds with null, whatever the body. An empty body counts as null. A body that fails to parse fails with the parser's message, even for a non-ok status. A parsed body succeeds with its value when the status is 2xx and fails with the chosen message otherwise. A non-ok status never succeeds. |
| Api.FailureMessage | rbac_frontend/src/services/api.js:15 | The failure message is the string form of a truthy `message`, otherwise of a truthy `detail`, otherwise the status text. |
| Api.Settle | rbac_frontend/src/services/api.js:10-18 | A rejected fetch fails with its own message. A body that cannot be read fails with the read's message, whatever the status, except that a 204 never reads its body and succeeds with null. A read response is classified. |
| Api.UnreadableBodyFailsEvenWhenOk | rbac_frontend/src/services/api.js:11-13 | On a 2xx status other than 204, a body read that rejects fails the request with its message, while the same response with an empty body succeeds with null. |
| Api.UrlIsBasePlusPath | rbac_frontend/src/services/api.js:1-10 | The request URL is the configured base followed by the path. With no base, it is the path itself. |
| Api.EndpointsCarryToken | rbac_frontend/src/services/api.js:21-52 | No endpoint passes its own headers. So every endpoint's request carries the JSON content type, and carries the bearer header exactly when a token is stored. |
| Api.EndpointShapes | rbac_frontend/src/services/api.js:29-48 | List and create address `/<collection>`. Update and delete address `/<collection>/<id>`. They use GET, POST, PUT and DELETE. Create and update send the payload; delete sends no body. |
| Api.ItemPathInjective | rbac_frontend/src/services/api.js:31-32 | Two item paths are equal only for the same collection and the same id. |
| Api.AssignSendsWholeList | rbac_frontend/src/services/api.js:33-42 | `assignRoles` PUTs `/users/<id>/roles` with `role_ids` as the given list, in order. `assignPermissions` PUTs `/roles/<id>/permissions` with `permission_ids` as the given list, in order. |
| Api.NoContentNeverReadsBody | rbac_frontend/src/services/api.js:11 | Every 204 response succeeds with null, independent of its status text, body and parser. |
| Api.OkIffDone | rbac_frontend/src/services/api.js:12-18 | For a body that parses, the request succeeds if and only if the status is 2xx. On success it returns the parsed value unchanged. |
| Api.MessageFallsThrough | rbac_frontend/src/services/api.js:15 | An empty `message` falls through to `detail`, then to the status text. A null or array body yields the status text. |
| Api.DetailListMessage | rbac_frontend/src/services/api.js:15-16 | A `detail` that is a list of n plain objects becomes n copies of "[object Object]" joined by ",". For one object that is "[object Object]", for two "[object Object],[object Object]". An empty list is truthy, so it is chosen and gives the empty message. |
| JsNumber.NumberOfString | rbac_frontend/src/pages/UsersPage.js:61-67 | `Number(String(id))` gives back the integer id. |
| JsNumber.StringOfIntInjective | rbac_frontend/src/pages/UsersPage.js:61 | Distinct ids have distinct decimal strings. |
| JsNumber.NumbersOfStrings | rbac_frontend/src/pages/UsersPage.js:61-67 | Mapping `String` over a list of ids, then `Number`, gives back the ids in order. |
| JsNumber.ToNumber | rbac_frontend/src/pages/UsersPage.js:67 | `Number(s)` is an integer exactly for the empty string or an optionally signed decimal literal. Otherwise it is NaN. A negative result comes only from a leading '-'. |
| Session.Start | rbac_frontend/src/auth/AuthContext.js:9-10 | The first render keeps storage as found, has no user, and is initializing. |
| Session.Bootstrap | rbac_frontend/src/auth/AuthContext.js:12-25 | Without a truthy stored token, nothing is called. Otherwise `/auth/me` is called exactly once. Success keeps the token and sets the user. Failure removes the token and clears the user. Initializing ends in every case. |
| Session.Login | rbac_frontend/src/auth/AuthContext.js:28-38 | `/auth/login` is called first. A failure propagates and leaves the session as it was. A missing or falsy token throws "Invalid login response" with the session unchanged. Otherwise the token's string form is stored and `/auth/me` is called. Its user is set on success. On failure its error propagates while the new token stays and the previous user remains. |
| Session.Logout | rbac_frontend/src/auth/AuthContext.js:41-45 | Logout removes the token and clears the user. `initializing` is left as it was. |
| Session.BootstrapConsistent | rbac_frontend/src/auth/AuthContext.js:12-25 | The first render and the bootstrap both leave a session where any shown user is the identity of the stored token. |
| Session.RejectedTokenRemoved | rbac_frontend/src/auth/AuthContext.js:20-23 | A stored token that the identity check rejects is removed, after exactly one `/auth/me` call. |
| Session.LogoutConsistent | rbac_frontend/src/auth/AuthContext.js:41-45 | After logout, the session is trivially consistent. |
| Session.LoginTouchesStorageOnlyWithToken | rbac_frontend/src/auth/AuthContext.js:31-37 | Storage changes only when the login answer carries a truthy token. Without one, the whole session is unchanged. |
| Session.IdentityCallCarriesNewToken | rbac_frontend/src/auth/AuthContext.js:32-33 | The `/auth/me` call of a login goes to the base plus `/auth/me` with the bearer header of the token just stored, for a token whose string form is non-empty. |
| Session.LoginConsistentWhenIdentityAgrees | rbac_frontend/src/auth/AuthContext.js:28-38 | As written, login keeps consistency when the identity call succeeds, or when nobody was signed in before. |
| Session.LoginBreaksConsistency | rbac_frontend/src/auth/AuthContext.js:32-36 | As written, a signed-in session that logs in with a token the identity endpoint rejects keeps the new token and the old user. The result is inconsistent. |
| Session.LoginValidated | rbac_frontend/src/auth/AuthContext.js:28-38 | This is the corrected login. It makes the same calls and has the same outcome as the original. It is identical on success. It is also identical whenever only `/auth/login` is called, and whenever the login answer carries no truthy token it leaves the session unchanged. When `/auth/me` rejects the new token, the token is removed and the user cleared. It never changes `initializing`. |
| Session.LoginValidatedConsistent | rbac_frontend/src/auth/AuthContext.js:28-38 | When the startup check settled before the login started, the corrected login keeps consistency for every outcome of its two calls. |
| Session.LateIdentitySettle | rbac_frontend/src/auth/AuthContext.js:18-24 | The startup check's settlement acts on whatever session is current. Success sets its user and keeps the stored token. Failure removes the stored token and clears the user. Initializing ends either way. |
| Session.PendingCheckRaceUndoesLogin | rbac_frontend/src/auth/AuthContext.js:18-34 | A login made while the startup check of an older token is pending signs user 2 in consistently. If the old check then succeeds, user 1 is shown over user 2's token. If it fails, user 2's new token is removed and user 2 is signed out. |
| Routing.Guard | rbac_frontend/src/App.js:12-18 | The guard redirects exactly when the user is falsy. The redirect goes to `/login` with replace and records the current location. |
| Routing.Route | rbac_frontend/src/App.js:61-86 | `/login` always shows the login screen. Any other path redirects if and only if nobody is signed in, and otherwise renders the shell with the matched page. |
| Routing.GuardIgnoresInitializing | rbac_frontend/src/App.js:14-17 | Routing does not depend on `initializing`. |
| Routing.PendingTokenRedirects | rbac_frontend/src/App.js:16 | While a stored token is still being checked, every guarded path redirects to `/login`. |
| Routing.LogoutRedirects | rbac_frontend/src/App.js:16 | After logout, every guarded path redirects. |
| LoginPage.Target | rbac_frontend/src/pages/LoginPage.js:15 | The post-login target is the recorded location's pathname when it is non-empty. Otherwise it is "/". |
| LoginPage.Submit | rbac_frontend/src/pages/LoginPage.js:17-29 | A submission is ignored while busy. Otherwise the error is cleared and busy is set while `login` runs. Success navigates to the target with replace. A failure shows its message, or "Login failed" when the message is empty. Busy is cleared afterwards, and email and password are kept. |
| LoginPage.RedirectThenLoginReturns | rbac_frontend/src/pages/LoginPage.js:15-23 | A signed-out visit to a guarded path is redirected. A successful login then navigates back to that path, which renders in the shell. |
| Crud.ResetForm | rbac_frontend/src/pages/UsersPage.js:29 | Resetting the form clears both fields and the edited record, and changes nothing else. The same line appears at RolesPage.js:29 and PermissionsPage.js:25. |
| Crud.Edit | rbac_frontend/src/pages/UsersPage.js:43-47 | Editing makes the record the edited one. The form shows its two fields (email and full name, or name and description), with "" for a missing field. Nothing else changes. The same handler appears at RolesPage.js:43-47 and PermissionsPage.js:39-43. |
| Crud.OpenAssign | rbac_frontend/src/pages/UsersPage.js:59-63 | Opening the assignment dialog puts it on the record. The selection becomes the string ids of the record's links (roles of a user, permissions of a role), in order, or empty when there are none. Nothing else changes. |
| Crud.Choose | rbac_frontend/src/pages/UsersPage.js:129-135 | The multiple select replaces the selection with the string ids of exactly the picked options. Nothing else changes. |
| Crud.ChosenFrom | rbac_frontend/src/pages/UsersPage.js:129-135 | The multiple select reports as many options as there are picked positions. Each picked option stands at its rank, which is the number of picked positions before it. |
| Crud.ChosenInListOrder | rbac_frontend/src/pages/UsersPage.js:129-135 | The reported options are exactly the picked ones, in both directions, and never more than the list. Of any two reported options, the earlier one comes from an earlier picked position in the list. |
| Crud.ChosenValues | rbac_frontend/src/pages/UsersPage.js:129-135 | The select's values are the string ids of picked options, and every picked option's string id is among them. |
| Crud.EditThenSaveUpdates | rbac_frontend/src/pages/UsersPage.js:31-47 | Saving after editing a record updates that record's id with its fields. A missing field is sent as "". |
| Crud.ResetThenSaveCreates | rbac_frontend/src/pages/UsersPage.js:29-35 | Saving after a form reset creates a record. |
| Crud.MutationsReload | rbac_frontend/src/pages/UsersPage.js:31-73 | A save, delete or assignment that succeeds is followed by the page's full reload. One that fails is not. |
| Crud.ErrorOnlyOnFailure | rbac_frontend/src/pages/UsersPage.js:31-57 | The error text changes only when a call fails, and then it is never empty. |
| Crud.UnchangedAssignSendsCurrentIds | rbac_frontend/src/pages/UsersPage.js:59-73 | Opening the assignment dialog and saving it unchanged sends exactly the record's current link ids, in order. |
| Crud.ChosenAssignSendsChosenIds | rbac_frontend/src/pages/UsersPage.js:65-73 | After a selection, the assignment sends the chosen options' ids in list order. Every id sent is a picked option's id, and every picked option's id is sent. |
| Crud.FailedAssignKeepsDialog | rbac_frontend/src/pages/UsersPage.js:65-73 | A failed assignment keeps the dialog on the same record and keeps the selection. |
| Crud.LinksCell | rbac_frontend/src/pages/UsersPage.js:78 | The roles column (and the permissions column at RolesPage.js:78) is never empty. A record without links shows "-". One link shows its name, or "-" if the name is empty. Several links show every name at its offset, in order, with ", " just before each name but the first. The length is the names' lengths plus two per gap, so nothing else appears. |
| Crud.CellLayout | rbac_frontend/src/pages/UsersPage.js:78 | The same four cases hold for any list of names joined by ", " with "-" as the fallback. |
| JsValue.JoinLayout | rbac_frontend/src/pages/UsersPage.js:78 | `join` lays the parts out one after the other: each part at its offset, the separator just before each part but the first, and a total length of the parts plus one separator per gap. |
| Crud.CloseAssign | rbac_frontend/src/pages/UsersPage.js:119-122 | The dialog's close control and its Cancel button close the dialog. The selection, rows, error and everything else stay. The same handlers appear at RolesPage.js:119-122. |
| Crud.CancelThenReopen | rbac_frontend/src/pages/UsersPage.js:59-63 | Cancelling the dialog and then opening it on a record gives the same page as opening it directly. |
| Crud.ReloadShowsServerLists | rbac_frontend/src/pages/UsersPage.js:17-25 | A reload that succeeds shows exactly the lists the server sent: the page's own list as rows and, on the users and roles pages, the second list as the choices. The form, the dialog, the selection and the error are kept. |
| Crud.MountShowsServerLists | rbac_frontend/src/pages/UsersPage.js:8-27 | The load started on mount issues the page's list requests. From the initial state, success shows the server's lists under a blank form, with no dialog, no selection and no error. Failure shows a non-empty error over empty lists. |
| Crud.SaveThenReloadShowsServerRows | rbac_frontend/src/pages/UsersPage.js:31-41 | A successful save followed by its reload leaves a blank form with nothing edited, shows the server's rows, and keeps the error text. |
| UsersPage.Load | rbac_frontend/src/pages/UsersPage.js:17-25 | Load requests `/users` and `/roles` and leaves the page unchanged until they settle. |
| UsersPage.LoadDone | rbac_frontend/src/pages/UsersPage.js:17-25 | On success, rows and role options are replaced, with a missing list read as empty. On failure, the message is shown, or "Failed to load". |
| UsersPage.OnSave | rbac_frontend/src/pages/UsersPage.js:31-41 | Save PUTs `/users/<id>` for the edited user, or POSTs `/users` when none is edited. The body is `{email, full_name}`. Success clears the form and reloads. Failure keeps the form and shows the message, or "Failed to save user". |
| UsersPage.OnDelete | rbac_frontend/src/pages/UsersPage.js:49-57 | Without confirmation, there is no call and no change. Otherwise it sends DELETE `/users/<id>`. Success reloads. Failure shows the message, or "Failed to delete user". |
| UsersPage.DoAssign | rbac_frontend/src/pages/UsersPage.js:65-73 | Assign PUTs `/users/<id>/roles` with `role_ids` set to `Number` of each selected value. Success closes the dialog and reloads. Failure keeps the dialog and shows the message, or "Failed to assign roles". |
| UsersPage.CreateExample | rbac_frontend/src/pages/UsersPage.js:31-41 | Creating a user issues exactly one POST and then the two list requests. A user without roles shows "-". |
| UsersPage.ReplaceExample | rbac_frontend/src/pages/UsersPage.js:59-73 | A user holding roles 1 and 2 opens with selection ["1","2"]. Choosing 2 and 3 sends `role_ids: [2, 3]`, the new set rather than a difference. |
| RolesPage.Load | rbac_frontend/src/pages/RolesPage.js:17-25 | Load requests `/roles` and `/permissions` and leaves the page unchanged until they settle. |
| RolesPage.LoadDone | rbac_frontend/src/pages/RolesPage.js:17-25 | On success, rows and permission options are replaced, with a missing list read as empty. On failure, the message is shown, or "Failed to load". |
| RolesPage.OnSave | rbac_frontend/src/pages/RolesPage.js:31-41 | Save PUTs `/roles/<id>` or POSTs `/roles` with `{name, description}`. Success clears the form and reloads. Failure shows the message, or "Failed to save role". |
| RolesPage.OnDelete | rbac_frontend/src/pages/RolesPage.js:49-57 | Without confirmation, there is no call and no change. Otherwise it sends DELETE `/roles/<id>`. Success reloads. Failure shows the message, or "Failed to delete role". |
| RolesPage.DoAssign | rbac_frontend/src/pages/RolesPage.js:65-73 | Assign PUTs `/roles/<id>/permissions` with `permission_ids` set to `Number` of each selected value. Success closes the dialog and reloads. Failure shows the message, or "Failed to assign permissions". |
| PermissionsPage.Load | rbac_frontend/src/pages/PermissionsPage.js:14-21 | Load requests `/permissions` alone. |
| PermissionsPage.LoadDone | rbac_frontend/src/pages/PermissionsPage.js:14-21 | On success, only the rows are replaced, with a missing list read as empty. On failure, the message is shown, or "Failed to load permissions". |
| PermissionsPage.OnSave | rbac_frontend/src/pages/PermissionsPage.js:27-37 | Save PUTs `/permissions/<id>` or POSTs `/permissions` with `{name, description}`. Success clears the form and reloads. Failure shows the message, or "Failed to save permission". |
| PermissionsPage.OnDelete | rbac_frontend/src/pages/PermissionsPage.js:45-53 | Without confirmation, there is no call and no change. Otherwise it sends DELETE `/permissions/<id>`. Success reloads. Failure shows the message, or "Failed to delete permission". |
| PermissionsPage.NoContentDeleteReloads | rbac_frontend/src/pages/PermissionsPage.js:45-53 | A confirmed delete answered with 204 counts as a success: it reloads and shows no error. |

## Left out

- The effects `fetch`, `localStorage`, `JSON.parse`, `JSON.stringify` and `window.confirm` are outside the model. Their results are parameters, and request bodies are kept as JSON values rather than serialised text.
- Session.Bootstrap: models the startup identity check as settling before any login. In the code a login can run while that check is pending, because the guard sends every path to `/login` then. The late settlement then acts on the logged-in session: a success puts the old token's user over the new token, and a failure removes the new token and signs the user out. `Session.PendingCheckRaceUndoesLogin` exhibits both outcomes. No consistency lemma covers that interleaving, and the corrected login does not prevent it.
- Timing and concurrency are left out. This covers the interleaving of an unawaited `load()` with later handlers and the ordering inside `Promise.all`. The reload is the trailing list requests of a step, and its completion is one `LoadDone` transition.
- `Promise.all` rejects on the first failing request. The model has one failure message for the whole load, not which request failed first.
- Rendering is left out: JSX layout, the shared components in `src/components/UI.js`, the header, and the navigation links. What the handlers and table cells compute is modelled; how it is drawn is not.
- `src/pages/DashboardPage.js` and the `stats` endpoint's use are not part of this model. `Api.StatsCall` only fixes its path.
- The text-field `onChange` setters only copy input into state. The model takes the resulting field values as the page state.
- `useAuth`'s check that it runs inside the provider is a React wiring concern and is left out.
- JsNumber.ToNumber: models `Number` only for the empty string and optionally signed decimal integer literals. Anything else is NaN. Whitespace trimming, fractions, exponents, hex and `Infinity` are not modelled, because option values are always produced by `String` of an integer id.
- JsNumber.IntToString: integers are unbounded. The rounding of ids beyond 2^53 by JavaScript numbers is not modelled.
- Routing.Route: matches paths exactly. The router's case-insensitive and trailing-slash matching is not modelled.
- Api.Headers: header names are compared exactly. The case folding done by the `Headers` class is not modelled.
- UsersPage.DoAssign: requires an open assignment dialog. The dialog component renders nothing while it is closed (`src/components/UI.js`), so its save button cannot be pressed without one. The same holds for RolesPage.DoAssign and Crud.DoAssign.
- Floating-point ids and JSON numbers are integers in the model.
- The environment variable read for the API base is a parameter of `Api.ApiBase`. Build-time configuration is not modelled.

## Findings

| source | as written | input that shows it | evidently intended | confidence | as-written member | corrected member |
|---|---|---|---|---|---|---|
| rbac_frontend/src/auth/AuthContext.js:32-36 | `login` stores the new token before calling `/auth/me` and does not undo this when that call fails. So the new token stays in storage while the previous user is still shown. | Signed in as user 1 with token "old". Log in again: `/auth/login` answers `{token: "new"}` and `/auth/me` with "new" fails. Storage then holds "new" while user 1 is still shown, and every later request carries a token that does not belong to the shown user. `Session.LoginBreaksConsistency` exhibits this input. | The same handling as the bootstrap for a rejected token: remove it and clear the user, then propagate the error. `Session.LoginValidatedConsistent` proves that the corrected login keeps every shown user bound to the stored token, when the startup check settled before the login started. | medium, not executed | Session.Login | Session.LoginValidated |

The rest of the model uses the corrected `Session.LoginValidated` wherever a login feeds further reasoning (`LoginPage.RedirectThenLoginReturns`). On success it is identical to the code as written.
