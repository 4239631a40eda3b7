# ovni-games core: user registry, login links, GraphQL text

A Dafny model of three pieces of sequential logic in the ovni-games Angular
application, with proofs of what each promises.

- **The user registry** (`UserService`, src/app/user/user.service.ts), in
  `users.dfy`. The class `Users.UserService` holds:
  - the `currentUser` slot;
  - three dictionaries, each a `map<string, User>` field: by lowercased
    email, by lowercased id text, and by room.

  Its methods follow the source's branches one for one:
  - `registerUser` and `unregisterUser`;
  - the `getRegisteredUser` precedence;
  - `invalidCurrentUser`, `logout`, and the answer to the `login` mutation;
  - the socket push handler;
  - the subject `get` returns (`Users.UserSubject`): a cache hit, a fetch,
    and the field-level difference that turns a pushed snapshot into one
    `update`.

  Calls into the gateway (`join`, `leave`, `query`, `mutate`) and emissions
  on subjects are appended to a ghost `log` of `Event`s, in the order the
  source makes them. A user (`Users.User`) is a property map and an `alive`
  flag.
- **The login component** (projects/ovni-games/src/lib/login/login.component.ts),
  in `login.dfy`:
  - `concatQueryParams`;
  - the OAuth button list: filter, link rewrite in place on the service
    objects, and reorder by `oAuthList`;
  - `loginHref`;
  - `login()` and its answer;
  - the two error-message functions.

  The browser `location`, the asset prefix and `encodeURIComponent` are
  parameters.
- **The GraphQL text** that `ApiService.query` and `ApiService.mutate` build
  (src/app/api.service.ts), in `api.dfy`. `JSON.stringify` is a function
  parameter.

`js.dfy` holds the JavaScript semantics the three rely on:
- values and truthiness;
- string coercion of object keys;
- ASCII `toLowerCase`;
- `Array.prototype.join`;
- plain objects as ordered entries, with `Object.assign` as `Merge`.

A `null` field list makes the source throw a `TypeError` at `.join`. The model
returns that as an `Api.TypeError` result, not as a precondition.

## Model

| member | source | states |
|---|---|---|
| Js.Lower | src/app/user/user.service.ts:103 | `toLowerCase` keeps the length and lowercases each ASCII letter in place |
| Js.Truthy | src/app/user/user.service.ts:102 | `undefined` and `null` are falsy, objects truthy, and a string is truthy iff it is non-empty |
| Js.ToText | src/app/user/user.service.ts:106 | `v + ''` leaves a string as it is, and is empty only for the empty string |
| Js.LowerIdempotent | src/app/user/user.service.ts:119 | lowercasing a lowercased key changes nothing, so a stored key is found again by the lookup's own lowercasing |
| Js.JoinNonEmpty | src/app/api.service.ts:40 | a join whose first part is non-empty is non-empty, so the `\|\| 'id'` and `? {…} : ''` fallbacks are not taken |
| Js.Join | src/app/api.service.ts:38 | `join` of no parts is `''`, of one part is that part, and a join starts with its first part |
| Js.JoinCons | src/app/api.service.ts:36-38 | a part joined in front of others is followed by the separator and the join of the rest; with the one-part case of `Js.Join` this fixes every join, the separator exactly between neighbouring parts |
| Js.MergeSnoc | src/app/user/user.service.ts:175 | assigning one more property is one map update |
| Js.Merge | src/app/user/user.service.ts:34 | after `Object.assign` the object has exactly its old keys and the keys of the merged properties |
| Js.MergeGet | src/app/user/user.service.ts:34 | after `Object.assign`-style merging, a merged key reads as its value in the merged object and every other key is unchanged |
| Js.Prop | src/app/user/user.service.ts:115-130 | `parameters[key]` is `undefined` when the object has no such key |
| Js.PropIsLastEntry | src/app/user/user.service.ts:115-130 | a key the object has reads as the value of its last entry for that key |
| Js.Replace | src/app/user/user.service.ts:153 | assigning an existing key keeps every key in place, sets that key and leaves the others |
| Js.SetProp | src/app/user/user.service.ts:153 | `properties.id = …` makes `id` read as the new value and leaves every other key as it was; an existing key keeps its place, a new one is appended last |
| Api.Entries | src/app/api.service.ts:36-37 | one `key: stringify(value)` entry per key, in key order |
| Api.ParametersString | src/app/api.service.ts:36-38 | no parameter object gives `''`; any parameter object gives a text in parentheses |
| Api.ShortParameters | src/app/api.service.ts:36-38 | no parameter object gives `''`, an empty one `()`, one key `(key: value)` |
| Api.ParametersCons | src/app/api.service.ts:36-38 | a further key puts its entry and `, ` in front of the others, so the entries appear in key order joined by `, ` |
| Api.FieldsText | src/app/api.service.ts:39-44 | a field array is joined with a bare `,`, a string is kept, and a left-out list is `''`; `null` (and only `null`) throws |
| Api.QueryText | src/app/api.service.ts:35-53 | the query throws iff the data or extra fields are `null` |
| Api.MutationText | src/app/api.service.ts:55-71 | the mutation throws iff its returned fields are `null` |
| Api.Call | src/app/api.service.ts:49 | the operation text starts with its name, and is only the name without parameters |
| Api.Selection | src/app/api.service.ts:49 | the query selection opens with ` {data{` and closes with `}`; with no data fields it selects `id` |
| Api.Returning | src/app/api.service.ts:62-67 | the mutation selection starts with a space, and is only that space iff there are no fields |
| Api.DefaultDataField | src/app/api.service.ts:49 | without data fields the query asks for `data{id}`; it ends with no extra fields |
| Api.StringDataKept | src/app/api.service.ts:39-49 | non-empty data fields given as a string appear verbatim inside `data{…}`, followed by the extra fields unchanged |
| Api.DataFieldsJoined | src/app/api.service.ts:39-49 | data field names whose join is non-empty are comma-joined inside `data{…}`, followed by the extra fields unchanged |
| Api.MutationWithoutFields | src/app/api.service.ts:62-67 | with no returned fields, the mutation ends with the argument list and a space |
| Api.StringFieldsBraced | src/app/api.service.ts:59-67 | non-empty returned fields given as a string follow the argument list wrapped as `{fields}` |
| Api.MutationFieldsBraced | src/app/api.service.ts:59-67 | returned field names whose join is non-empty are comma-joined inside braces after the argument list |
| Api.SharedParameters | src/app/api.service.ts:36-58 | `query` and `mutate` put the same name and argument list right after their opening |
| Api.QueryStartsWithCall | src/app/api.service.ts:47-49 | the query text starts with its head, the name and the argument list |
| Api.MutationStartsWithCall | src/app/api.service.ts:65-67 | the mutation text starts with its head, the name and the argument list |
| Api.GamesListQueryThrows | src/app/games-list/games-list.component.ts:28 | the games list query, which passes `null` data fields, throws before reaching Apollo |
| Users.Diff | src/app/user/user.service.ts:168-173 | the difference is no longer than the snapshot, and every entry of it is a snapshot entry whose value differs from the cached one |
| Users.DiffComplete | src/app/user/user.service.ts:168-173 | every snapshot entry that differs from the cached value is in the difference |
| Users.DiffKeys | src/app/user/user.service.ts:168-173 | every key of the difference is a key of the snapshot |
| Users.DiffThenMergeAgrees | src/app/user/user.service.ts:163-177 | after the difference is merged, the user holds every value of the snapshot |
| Users.MergeDiffSnoc | src/app/user/user.service.ts:168-173 | merging the difference of a longer snapshot is merging the shorter one's, then the last entry if it differs |
| Users.DiffMissesKey | src/app/user/user.service.ts:168-173 | a key not in the snapshot is not in the difference |
| Users.DiffOfAgreeing | src/app/user/user.service.ts:168-176 | a snapshot equal to the cached user on every key gives no difference, so no `update` |
| Users.ResubmitIsQuiet | src/app/user/user.service.ts:163-177 | pushing the same snapshot again after its update changes nothing more |
| Users.RenameExample | src/app/user/user.service.ts:168-173 | `{id: 1, name: "B"}` against a cached `{id: 1, name: "A"}` differs only in `name` |
| Users.ComputeDiff | src/app/user/user.service.ts:166-173 | the `forEach` loop builds exactly the difference, and `touched` is set iff it is non-empty |
| Users.EmailKey | src/app/user/user.service.ts:103 | the email key is the email with each character lowercased in place, so it is all lowercase |
| Users.IdKey | src/app/user/user.service.ts:106 | the id key is the id text with each character lowercased in place, so it is all lowercase |
| Users.RoomKey | src/app/user/user.service.ts:109 | a string room is its own key, and a truthy room has a non-empty key |
| Users.User.constructor | src/app/user/user.service.ts:152 | a new user reads each key as the fetched object does, and is alive with the given subscription |
| Users.User.Extend | src/app/user/user.service.ts:34 | `extend` merges the properties into the user and keeps it alive |
| Users.User.Kill | src/app/user/user.service.ts:95 | `kill` marks the user dead and keeps its properties |
| Users.UserService.constructor | src/app/user/user.service.ts:14-17 | a new registry is empty, with no current user and nothing logged |
| Users.UserService.GetRegisteredUser | src/app/user/user.service.ts:114-135 | current user if asked for and set, else the email, id, then room match; `null` iff none matches |
| Users.UserService.EmailLookup | src/app/user/user.service.ts:118-123 | a lookup by email alone returns the entry under the lowercased email, or `null` |
| Users.UserService.IdLookup | src/app/user/user.service.ts:124-129 | a lookup by id alone returns the entry under the lowercased id text, or `null` |
| Users.UserService.RoomLookup | src/app/user/user.service.ts:130-132 | a lookup by room alone returns the room's entry, or `null` |
| Users.UserService.Registered | src/app/user/user.service.ts:98-112 | after registration the user sits under its email, id and room keys, each when truthy |
| Users.UserService.RegisterUser | src/app/user/user.service.ts:98-112 | the user is stored under its lowercased email, lowercased id text and room, each only when truthy; current only when marked; `join(room)` iff room; keys stay lowercase |
| Users.UserService.StoreEmail | src/app/user/user.service.ts:102-104 | the email entry is set under the lowercased email iff the email is truthy |
| Users.UserService.StoreId | src/app/user/user.service.ts:105-107 | the id entry is set under the lowercased id text iff the id is truthy |
| Users.UserService.StoreRoom | src/app/user/user.service.ts:108-111 | the room entry is set and `join` is called iff the room is truthy |
| Users.UserService.RegisteredIsFound | src/app/user/user.service.ts:98-135 | a user stored under its keys is what a lookup by any case spelling of its email, by its id, or by its room returns |
| Users.UserService.MixedCaseIsNoKey | src/app/user/user.service.ts:83-84 | with only lowercase keys stored, an email that lowercasing changes is never a key, so the raw-email delete removes nothing |
| Users.UserService.UnregisterUser | src/app/user/user.service.ts:82-96 | as written: the raw email and the id text are deleted from the email dictionary; the id dictionary is untouched; the room entry is removed and `leave` is called iff room; the user is killed |
| Users.UserService.ForgetEmailKey | src/app/user/user.service.ts:83-84 | a key is gone from the email dictionary, which is otherwise unchanged |
| Users.UserService.ForgetRawKeys | src/app/user/user.service.ts:83-88 | the email dictionary loses exactly the raw email text and the id text |
| Users.UserService.ForgetUserRoom | src/app/user/user.service.ts:89-94 | the room entry is removed and `leave` is called iff the room is truthy |
| Users.UserService.UnregisterUserAsIntended | src/app/user/user.service.ts:82-96 | corrected: each dictionary loses exactly the key `registerUser` used; the current slot is unchanged; `leave` iff room; killed |
| Users.UserService.ForgetUserEmail | src/app/user/user.service.ts:83-85 | corrected: the email dictionary loses the lowercased email key |
| Users.UserService.ForgetUserId | src/app/user/user.service.ts:86-88 | corrected: the id dictionary loses the lowercased id key |
| Users.UserService.UnregisteredIsGone | src/app/user/user.service.ts:114-135 | once a user's own keys are gone, no lookup by any spelling of its email, by its id or by its room finds anything |
| Users.UserService.InvalidCurrentUser | src/app/user/user.service.ts:44-49 | `leave` iff the current user has a room, then the slot is cleared; the dictionaries are unchanged |
| Users.UserService.Logout | src/app/user/user.service.ts:76-80 | clears the current user as above, then sends the `logout` mutation |
| Users.UserService.Login | src/app/user/user.service.ts:51-57 | sends the `login` mutation with email, password and remember, asking for the user data fields |
| Users.UserService.OnLoginResult | src/app/user/user.service.ts:58-71 | no user gives `null` and changes nothing; a user is built without a subscription and registered as current |
| Users.UserService.UpdateUser | src/app/user/user.service.ts:152-156 | the properties are merged into the user, then `updateUser` is sent with `id` set to the user's id, asking for `updated_at` |
| Users.UserService.HandleMessage | src/app/user/user.service.ts:30-41 | only an `extend` for a registered room merges into that room's user, which is emitted iff it has a subscription; other users are unchanged |
| Users.UserService.Get | src/app/user/user.service.ts:137-138 | `get` returns an unsubscribed subject for the parameters with no user yet |
| Users.UserSubject.constructor | src/app/user/user.service.ts:138 | a new subject has no user and no pending query |
| Users.UserSubject.Subscribe | src/app/user/user.service.ts:139-147 | a registered user is emitted with no query; otherwise the `users` query is sent |
| Users.UserSubject.OnUsersResult | src/app/user/user.service.ts:147-160 | no user emits `null` and registers nothing; a user gets this subject, is registered (current iff `parameters.current`) and emitted |
| Users.UserSubject.Next | src/app/user/user.service.ts:163-179 | with a fetched user, one `update` carries exactly the differing entries and is sent iff there is one, and the user stays alive or dead as it was; a subject served from the cache does nothing |
| Users.RegisterThenUnregister | src/app/user/user.service.ts:82-112 | a user with an id and a mixed-case email, registered then unregistered, is still returned by a lookup by id and by email |
| Users.MixedCaseEmailExample | src/app/user/user.service.ts:83 | the user `{id: 7, email: "X@y.com"}` satisfies the conditions above |
| Login.ConcatQueryParams | projects/ovni-games/src/lib/login/login.component.ts:11-13 | a falsy `params` leaves `base`; otherwise `base`, then `?` iff `base` has no `?` (else `&`), then `params` |
| Login.ConcatTwice | projects/ovni-games/src/lib/login/login.component.ts:11-13 | a second parameter string is always joined with `&` |
| Login.Origin | projects/ovni-games/src/lib/login/login.component.ts:185 | `location.origin`, or protocol `//` host when it is empty |
| Login.OAuthService.constructor | projects/ovni-games/src/lib/login/login.component.ts:142 | a service as the server sends it |
| Login.AllowedCases | projects/ovni-games/src/lib/login/login.component.ts:143-147 | an empty list allows nothing; no list and no exclusion allow everything; an excluded code is never allowed |
| Login.Survivors | projects/ovni-games/src/lib/login/login.component.ts:142-147 | the kept services are server services with allowed codes, and every allowed one is kept |
| Login.SurvivorsMembership | projects/ovni-games/src/lib/login/login.component.ts:142-147 | a service is kept iff (no list or listed) and not excluded |
| Login.SurvivorsKeepOrder | projects/ovni-games/src/lib/login/login.component.ts:142-159 | the kept services are an order-preserving subsequence of the server's list |
| Login.SubsequenceOfLonger | projects/ovni-games/src/lib/login/login.component.ts:142-147 | a subsequence stays one when the longer list grows |
| Login.SurvivorsDistinct | projects/ovni-games/src/lib/login/login.component.ts:142-147 | filtering keeps distinct services distinct |
| Login.TableEntries | projects/ovni-games/src/lib/login/login.component.ts:154-156 | each entry of `list` is a kept service under its own code, and every kept code has one |
| Login.Reordered | projects/ovni-games/src/lib/login/login.component.ts:160-162 | one slot per listed code, holding `list[code]` or nothing |
| Login.ReorderedFollowsList | projects/ovni-games/src/lib/login/login.component.ts:142-162 | with a list: one slot per listed code; a filled slot is an allowed server service with that code; a slot is empty iff no server service with that code passed the filter |
| Login.LoginComponent.constructor | projects/ovni-games/src/lib/login/login.component.ts:44-118 | the input defaults, both form controls required, and the redirect and error addresses built from `baseUrl` |
| Login.LoginComponent.OAuthParamsAppended | projects/ovni-games/src/lib/login/login.component.ts:149-152 | the redirect and error query is never empty, so it follows every kept link after `?`, or `&` if the link has a query |
| Login.LoginComponent.Init | projects/ovni-games/src/lib/login/login.component.ts:129-140 | `oauthError` in the address sets that form error; loading ends; without OAuth its loading ends too, otherwise the services are requested |
| Login.LoginComponent.OnOAuthServices | projects/ovni-games/src/lib/login/login.component.ts:140-162 | the buttons are the kept services, or their reordering by `oAuthList`; exactly the kept services get the redirect and error query appended to their link |
| Login.LoginComponent.RewriteLogins | projects/ovni-games/src/lib/login/login.component.ts:148-159 | each kept link gets the query appended; with a list, `list` is the code table of the kept services |
| Login.LoginComponent.LoginHref | projects/ovni-games/src/lib/login/login.component.ts:179-197 | a rooted link with a prefix starts with prefix+href; any other link is unchanged without a scope and, with a scope, gets `scope=` and the encoded comma-joined scope after the right separator |
| Login.LoginComponent.LoginHrefParameters | projects/ovni-games/src/lib/login/login.component.ts:179-197 | `origin=` follows the right separator, and `&scope=` with the comma-joined scope follows it when there is one |
| Login.LoginComponent.Login | projects/ovni-games/src/lib/login/login.component.ts:202-204 | loading starts and the form values are sent to the login service |
| Login.LoginComponent.Auth | projects/ovni-games/src/lib/login/login.component.ts:224-226 | the user is emitted as logged in |
| Login.LoginComponent.OnLoginResolved | projects/ovni-games/src/lib/login/login.component.ts:204-216 | loading ends; a user is emitted; `null` sets the `badLogin` error, whose message is then shown |
| Login.LoginComponent.GetEmailErrorMessage | projects/ovni-games/src/lib/login/login.component.ts:231-245 | precedence: required, email, badLogin; empty iff none |
| Login.LoginComponent.EmailMessageNamesError | projects/ovni-games/src/lib/login/login.component.ts:231-245 | each message is shown iff its error is the first one present |
| Login.LoginComponent.GetPasswordErrorMessage | projects/ovni-games/src/lib/login/login.component.ts:250-254 | non-empty iff `required`, and then the required message |

## Left out

- The Apollo client, `gql`, the socket (`getMessages`, `join`, `leave`, `toggleWatching`) and the HTTP client are foreign calls. They appear only as logged `Event`s and `Request`s, or as parameters.
- RxJS and Promise timing are left out. Each callback body (`subscribe` of the login mutation, of the users query, of the OAuth services) is a method applied to the answer value.
- Several parts of the component are left out:
  - the icon fetch, `DomSanitizer`, and the `Promise.all` that ends `oAuthLoading` (login.component.ts:163-175), which are I/O;
  - the module-level `baseUrl` regex over `location.href` (login.component.ts:15), which reads browser state, so `baseUrl`, `href` and `location` are inputs;
  - the asset prefix, which is a parameter.
- `JSON.stringify` and `encodeURIComponent` are uninterpreted function parameters.
- The `User` class (src/app/user/user.ts) is not part of this model. A user is a property map and an `alive` flag:
  - `extend` merges as `Object.assign` does;
  - `update` is an `extend` followed by the persist callback;
  - `kill` clears `alive`.
- Users.UserService.UpdateUser: the asynchronous `user.updated_at = …` assignment after the `updateUser` answer is not modelled.
- The forwards `getCurrent`, `getById` and `getByEmail` (user.service.ts:184-194) are one-line calls of `get` and are not modelled separately.
- `UserService.update` (user.service.ts:196-202) is not modelled. It subscribes through `getById` and calls `user.update(properties)` on the answer directly, so it skips the field-level difference, and it throws when the answer is `null`.
- Numbers are integers. Floating point, `NaN` and object identity beyond a reference number are not modelled, and `toLowerCase` is ASCII only.
- Keys inherited from `Object.prototype` are not modelled. A dictionary holds only what was stored.
- Angular's validators are not modelled. The form error sets are state: both controls start with `required`, and `badLogin` replaces the email errors on a failed login.
- `allowRemember`, `allowLogin` and `flat` are read only by the template.
- Login.LoginComponent.OnOAuthServices requires the server's services to be distinct objects, which a freshly decoded JSON array always is.
- The hook component, the register and games-list wrappers, the NgModule and the routing table are declarative or one-call wrappers. The games list `null` query is the exception: Api.GamesListQueryThrows covers it.
- Users.UserService.UnregisterUser models the code as written, not what its guards show it means to do. `registerUser` stores a user under `email.toLowerCase()` and `(id + '').toLowerCase()` (user.service.ts:102-107), and `unregisterUser` tests for an entry under the email and an entry under the id before each delete (lines 83-88), so it means to remove both. The deletes use the raw email and look for the id in the email dictionary, so the id entry and a mixed-case email entry stay behind; see Findings.
- Users.UserService.InvalidCurrentUser and Users.UserService.Logout require a current user. With none, line 45 reads `room` of `null` and throws a `TypeError`. The model states this as a precondition and does not model the throw.
- Users.UserService.GetRegisteredUser, Users.UserService.RegisterUser, Users.UserService.OnLoginResult, Users.UserSubject.Subscribe and Users.UserSubject.OnUsersResult require a truthy email to be a string (`EmailReadable`). A truthy non-string email would throw at `.toLowerCase()` (lines 103 and 119). The TypeScript types declare `email` a string, so the model leaves that throw out.
- Api.ParametersString and Api.Entries emit one entry per entry of the parameter list. A JavaScript object has one entry per key, so the model's lists stand for objects only when their keys are distinct (`Js.DistinctKeys`); a list with a repeated key has no counterpart in the source.

## Findings

| source | as written | input that shows it | evidently intended | confidence | as-written member | corrected member |
|---|---|---|---|---|---|---|
| src/app/user/user.service.ts:82-88 | `unregisterUser` deletes `usersByEmail[user.email]` under the raw email and `usersByEmail[user.id]`; `usersById` is never cleared | a user `{id: 7, email: "X@y.com"}` registered then unregistered is still returned by `getRegisteredUser({id: 7})` and `getRegisteredUser({email: "X@y.com"})` | delete `usersByEmail[email.toLowerCase()]` and `usersById[(id + '').toLowerCase()]`, the keys `registerUser` used | high (not executed) | Users.RegisterThenUnregister | Users.UserService.UnregisterUserAsIntended |
