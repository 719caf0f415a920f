# User management front end — Dafny model

This project models the logic of a small browser application that lists
users fetched from a remote HTTP API, filters them on the client by a search
term, and shows one user per detail view. Three pieces carry that logic:

- **HTTP interceptor** (`HttpInterceptor`): every outgoing request gets the
  headers `Content-Type: application/json` and `X-App-Version: 1.0.0`, and
  every error response is turned into one user-facing message. A client-side
  `ErrorEvent`, status 0, 401, 403, 404, 500 and every other status each
  have their own message. That message is re-raised as the failure.
- **List view** (`UserListComponent`): `FilteredUsers` is the search filter,
  a pure function of the user collection and the search term. The class
  `UserList` holds the view's fields (search input, debounced search term,
  users, `loading`, `error`). Its methods are the view's event handlers:
  start of `loadUsers`, `next`, `error`, `finalize`, `onRetry`,
  `onClearSearch`, and the debounced term arriving.
- **Detail view** (`UserDetailComponent`): the class `UserDetail` holds the
  route-id signal, the stored user, `loading` and `error`. Its methods are
  `ngOnInit` with its `id && id > 0` check, the `loadUser` handlers
  (`next`, `error`, `complete`) and `onRetry`.

Helper modules: `Text` holds ASCII `toLowerCase`, ECMAScript `trim` and
`includes`. `Decimal` renders a status code as `${status}` does and reads it
back. `UserModel` is the user record. `Wrappers` has `Option`.

The fetch is not modelled as I/O. Its result is an input to the handlers:
`Outcome<T>`, either `Success(value)` or `Failure(message)`, where the
message is the one the interceptor produced. Each view class has a ghost
field that records the fetches it issued: `fetchesIssued` in the list view,
`requested` (the ids) in the detail view.

Three points of the code's behaviour are easy to misread. The model
follows the code on each:
- The detail view's `onRetry` reads the route-id signal again
  (`src/app/features/users/user-detail/user-detail.ts:82`). It does not use
  an id captured once at start-up. So `userId` is a field that
  `OnRouteParams` updates whenever the route parameters emit.
- The id check `id && id > 0` accepts any positive number, including
  non-integers such as 1.5, and not only positive integers.
- A client-side `ErrorEvent` maps to `Network error: <message>`. Only
  status 0 maps to the connectivity message.

## Model

| member | source | states |
|---|---|---|
| Text.ToLower | src/app/features/users/user-list/user-list.ts:48 | the result has the same length, no upper-case ASCII letter, and each character is the lower-case form of the input character at that position |
| Text.Trim | src/app/features/users/user-list/user-list.ts:48 | the result is empty exactly when the input is all whitespace; otherwise it neither starts nor ends with whitespace |
| Text.TrimUnique | src/app/features/users/user-list/user-list.ts:48 | trim is fully determined: whitespace around a middle that neither starts nor ends with whitespace is removed, and exactly that middle is returned |
| Text.TrimDecompose | src/app/features/users/user-list/user-list.ts:48 | every string is its trimmed form with only whitespace before and after it |
| Text.TrimIdempotent | src/app/features/users/user-list/user-list.ts:48 | trimming a trimmed string changes nothing |
| Text.TrimIgnoresPadding | src/app/features/users/user-list/user-list.ts:48 | whitespace added around a string does not change its trimmed form |
| Text.Includes | src/app/features/users/user-list/user-list.ts:56-58 | `includes` is true exactly when the needle occurs as a contiguous part of the haystack |
| Decimal.NatToString | src/app/core/interceptors/http.interceptor.ts:45 | the rendering of a natural number is non-empty, all digits, and has no leading zero |
| Decimal.IntToString | src/app/core/interceptors/http.interceptor.ts:45 | `${status}` is non-empty: digits only for a non-negative status, a minus sign followed by digits for a negative one |
| Decimal.IntToStringRoundTrip | src/app/core/interceptors/http.interceptor.ts:45 | reading back the rendering of a status gives that status |
| Decimal.IntToStringInjective | src/app/core/interceptors/http.interceptor.ts:45 | different statuses render differently |
| HttpInterceptor.SetHeader | src/app/core/interceptors/http.interceptor.ts:7-13 | after setting a header, its lower-cased name carries exactly the new value; other names keep theirs and no name is lost |
| HttpInterceptor.LowerHeaderNames | src/app/core/interceptors/http.interceptor.ts:9-10 | the two header names are stored under `content-type` and `x-app-version` |
| HttpInterceptor.WithAppHeaders | src/app/core/interceptors/http.interceptor.ts:7-13 | the outgoing request has the same verb and URL, carries `Content-Type: application/json` and `X-App-Version: 1.0.0`, and keeps every other header unchanged |
| HttpInterceptor.WithAppHeadersIdempotent | src/app/core/interceptors/http.interceptor.ts:7-13 | adding the headers a second time changes nothing |
| HttpInterceptor.MessageOrUnknown | src/app/core/interceptors/http.interceptor.ts:45 | a non-empty message is kept, an empty one becomes `Unknown error`; the result is never empty |
| HttpInterceptor.ServerErrorMessage | src/app/core/interceptors/http.interceptor.ts:45 | the text for an unlisted status starts with `Server error (`, ends with the (defaulted) response message, and is longer than those parts together, leaving room for the status |
| HttpInterceptor.ErrorMessage | src/app/core/interceptors/http.interceptor.ts:21-47 | the mapping is total and never returns the placeholder `An unexpected error occurred` |
| HttpInterceptor.Intercept | src/app/core/interceptors/http.interceptor.ts:5-53 | the next handler receives the request with the added headers; the outcome is a success exactly when it responded, with the body unchanged; an error becomes a failure carrying its mapped message |
| HttpInterceptor.ClientErrorIgnoresStatus | src/app/core/interceptors/http.interceptor.ts:23-25 | a client-side `ErrorEvent` gives `Network error: ` followed by its own message, whatever the status and the response message |
| HttpInterceptor.FixedMessagesDistinct | src/app/core/interceptors/http.interceptor.ts:29-43 | the messages for 0, 401, 403, 404 and 500 are pairwise distinct |
| HttpInterceptor.NetworkIsNotFixed | src/app/core/interceptors/http.interceptor.ts:25 | no network-error message equals a fixed status message |
| HttpInterceptor.ServerErrorIsNotFixed | src/app/core/interceptors/http.interceptor.ts:45 | no message for an unlisted status equals a fixed status message |
| HttpInterceptor.FixedMessageIdentifiesStatus | src/app/core/interceptors/http.interceptor.ts:23-46 | each fixed message is returned if and only if the error is not a client-side event and has that status |
| HttpInterceptor.OtherStatusMessage | src/app/core/interceptors/http.interceptor.ts:44-45 | an unlisted status gives `Server error (<status>): <message>`, with `Unknown error` when the message is empty |
| HttpInterceptor.ServerErrorMessageInjective | src/app/core/interceptors/http.interceptor.ts:44-45 | the message for an unlisted status determines the status and the (defaulted) response message |
| UserListComponent.SearchKey | src/app/features/users/user-list/user-list.ts:48 | the search key has no upper-case letter and is empty exactly when the term is all whitespace |
| UserListComponent.SearchKeyTrimmed | src/app/features/users/user-list/user-list.ts:48 | a non-empty search key neither starts nor ends with whitespace |
| UserListComponent.UserMatches | src/app/features/users/user-list/user-list.ts:56-58 | a user matches exactly when the key is a substring of its lower-cased name, email or username |
| UserListComponent.EmptyKeyMatchesAll | src/app/features/users/user-list/user-list.ts:51-53 | the empty key matches every user |
| UserListComponent.Select | src/app/features/users/user-list/user-list.ts:55-59 | the result is an order-preserving subsequence of the users; it holds exactly the matching users, each as many times as in the input |
| UserListComponent.FilteredUsers | src/app/features/users/user-list/user-list.ts:47-60 | a blank term returns the collection unchanged and in order; in every case the result is an order-preserving subsequence no longer than the collection, holding exactly the users that match the search key, with their multiplicities |
| UserListComponent.SearchKeyIdempotent | src/app/features/users/user-list/user-list.ts:48 | the search key of a search key is itself |
| UserListComponent.FilterUsesSearchKey | src/app/features/users/user-list/user-list.ts:48 | filtering by a term and by its lower-cased trimmed form gives the same result |
| UserListComponent.FilterIgnoresCase | src/app/features/users/user-list/user-list.ts:48 | terms with the same lower-case form filter alike |
| UserListComponent.FilterIgnoresPadding | src/app/features/users/user-list/user-list.ts:48 | whitespace around the term does not change the result |
| UserListComponent.FilterSoundAndComplete | src/app/features/users/user-list/user-list.ts:55-59 | a user is in the result if and only if it is in the collection and the search key is a substring of its lower-cased name, email or username |
| UserListComponent.UserList.Filtered | src/app/features/users/user-list/user-list.ts:47-60 | the users the view shows: all of them, in order, when the current search term is blank; in every case an order-preserving subsequence, no longer than the collection, holding exactly the users that match the term's search key |
| UserListComponent.UserList.constructor | src/app/features/users/user-list/user-list.ts:28-44 | a new view has an empty search input and term, no users, `loading` true, no error, no fetch issued |
| UserListComponent.UserList.BeginLoad | src/app/features/users/user-list/user-list.ts:67-71 | on entry to `loadUsers`, `loading` is true, `error` is null, and one fetch is issued; users and search are unchanged |
| UserListComponent.UserList.OnNext | src/app/features/users/user-list/user-list.ts:77-79 | the fetched users replace the collection; nothing else changes |
| UserListComponent.UserList.OnError | src/app/features/users/user-list/user-list.ts:80-82 | the error becomes the failure message; the collection and everything else are unchanged |
| UserListComponent.UserList.Finalize | src/app/features/users/user-list/user-list.ts:72-75 | `loading` becomes false; nothing else changes |
| UserListComponent.UserList.LoadUsers | src/app/features/users/user-list/user-list.ts:67-84 | after a load, `loading` is false and exactly one fetch was issued; success replaces the users and leaves no error; failure sets the error to the message and keeps the users |
| UserListComponent.UserList.NgOnInit | src/app/features/users/user-list/user-list.ts:62-64 | initialisation performs exactly one load |
| UserListComponent.UserList.OnRetry | src/app/features/users/user-list/user-list.ts:92-94 | a retry has exactly the effect of `loadUsers`, whatever the state before |
| UserListComponent.UserList.OnClearSearch | src/app/features/users/user-list/user-list.ts:97-99 | the search input becomes `''`; nothing else changes |
| UserListComponent.UserList.SearchSettles | src/app/features/users/user-list/user-list.ts:37-44 | the search term becomes the input's settled value; when that value is blank the shown users are the whole collection |
| UserDetailComponent.IsValidId | src/app/features/users/user-detail/user-detail.ts:42 | `id && id > 0` holds exactly when the id is a number (not NaN) greater than 0 |
| UserDetailComponent.IsValidIdExamples | src/app/features/users/user-detail/user-detail.ts:42 | NaN, 0 and -1 are rejected; 1 and the non-integer 1.5 are accepted |
| UserDetailComponent.UserDetail.constructor | src/app/features/users/user-detail/user-detail.ts:27-38 | a new view has the id signal at its initial `0`, no user, `loading` true, no error, no fetch issued |
| UserDetailComponent.UserDetail.OnRouteParams | src/app/features/users/user-detail/user-detail.ts:33-38 | the id signal takes the parsed route parameter; nothing else changes |
| UserDetailComponent.UserDetail.BeginLoad | src/app/features/users/user-detail/user-detail.ts:51-56 | on entry to `loadUser`, `loading` is true, `error` is null, and exactly that id is fetched |
| UserDetailComponent.UserDetail.OnNext | src/app/features/users/user-detail/user-detail.ts:58-62 | the stored user becomes the fetched user and `loading` is false; the error is unchanged |
| UserDetailComponent.UserDetail.OnError | src/app/features/users/user-detail/user-detail.ts:63-67 | the error becomes the message and `loading` is false; the stored user is unchanged |
| UserDetailComponent.UserDetail.OnComplete | src/app/features/users/user-detail/user-detail.ts:68-71 | only `loading` is cleared; applied when `loading` is already false (after `next` or `error`) it changes nothing |
| UserDetailComponent.UserDetail.LoadUser | src/app/features/users/user-detail/user-detail.ts:51-73 | after a load, `loading` is false and that id was fetched once; success stores the user and leaves the error null; failure sets the error and keeps the user |
| UserDetailComponent.UserDetail.NgOnInit | src/app/features/users/user-detail/user-detail.ts:40-48 | a valid id is fetched exactly once, as it is, and the outcome is applied; an absent, zero, negative or NaN id sets `Invalid user ID`, clears `loading`, keeps the user and issues no fetch |
| UserDetailComponent.UserDetail.OnRetry | src/app/features/users/user-detail/user-detail.ts:81-86 | with a valid id in the signal the same id is fetched again and the outcome applied; otherwise no state changes |

## Left out

- The fetch itself (`UserService`, `HttpClient`, `retry(2)`): the handlers take its final outcome as input. The three attempts that `retry(2)` makes are not modelled.
- The debounced search stream (`startWith`, `debounceTime(300)`, `distinctUntilChanged`, `toSignal`) is timer-driven. `UserList.SearchSettles` stands for the eventual delivery of the input's current value. The intermediate timing is not modelled.
- Signal dependency tracking of `computed`: `UserList.Filtered` evaluates `FilteredUsers` on the current fields whenever it is read.
- `cdr.detectChanges`, the `console.error` log, and the router navigation in `onUserClick` and `onBackToList` have no effect on the modelled state and are left out.
- The race where a stale response overwrites newer state is not modelled. `LoadUsers` and `LoadUser` run the entry step and the handlers in sequence. The single handlers can still be called in any order.
- An observable that emits more than one value: each fetch yields one `Outcome`.
- Text.ToLower: lower-cases ASCII letters only. JavaScript's `toLowerCase` folds all of Unicode.
- The id check takes the route parameter after JavaScript's `Number` coercion, as a real or `None` for NaN. The coercion itself is not modelled, and neither is `Infinity`, which `+params['id']` can produce and which passes the check.
- Status codes are rendered in plain decimal. JavaScript switches to exponent notation at 10^21, which no HTTP status reaches.
- The other fields of an error response (headers, URL, status text) are left out. The mapping does not read them; `message` is taken as given, although Angular builds it from the URL, status and status text.
- Request bodies and parameters beyond verb, URL and headers are left out. The interceptor does not touch them.
- The route configuration (`src/app/app.routes.ts`) and the root shell (`src/app/app.ts`) are declarative framework glue.
