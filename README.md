# Pet care platform: the verified core

This project models the core of a pet care web application.

On the server it models:
- the credential issuer: `POST /api/auth/register` and `POST /api/auth/login` over the `users` table, with bcrypt digests and one-hour JSON Web Tokens;
- the `authenticateToken` middleware and the table of mounted API prefixes;
- the `pets`, `services`, `appointments` and `health` routers over their tables.

In the browser it models:
- the `Database` client of `frontend/database.js`: the token it holds and mirrors in localStorage, and the headers it sends;
- the second `Database` client in `frontend/main.js`;
- the state that main.js's `PetCarePlatform` page object changes: the theme, the notification list and its badge, the cart counter, the add-pet form and logout.

Modules:
- `Wrappers`, `Http`, `Text`: Option/Result, HTTP replies, and JavaScript `split`/`join` with digit strings.
- `Tables`: SQL tables as a class over rows with an AUTO_INCREMENT key, plus the WHERE, ORDER BY ... DESC, DELETE and UPDATE shapes.
- `Bcrypt`, `Jwt`: the two crypto primitives. The key derivation and the HMAC are function parameters, so every property holds for every such function.
- `Auth`, `Server`: the issuer and the gate.
- `Pets`, `Services`, `Appointments`, `Health`: the resource routers.
- `ApiClient`, `JsString`, `Platform`: the browser side.
- `EndToEnd`: client and server together, from registration to a refused request.

A failing database query is the parameter `fault`. The clock (`now`, in seconds), the random salt, the `JWT_SECRET` variable (`env`) and `fetch` are parameters too.

## Model

| member | source | states |
|---|---|---|
| Text.Split | backend/server.js:38 | `split(' ')` yields at least one piece, no piece holds the separator, and joining the pieces gives the string back |
| Text.SplitJoin | backend/server.js:38 | splitting a join of separator-free pieces returns exactly those pieces |
| Bcrypt.Hash | backend/routes/auth.js:20-21 | the digest compares true against the password it was made from, with cost 10 and the given salt |
| Bcrypt.Compare | backend/routes/auth.js:58 | a stored digest matches a password exactly when it is the digest that password gives under the digest's own cost and salt |
| Jwt.SecretFrom | backend/server.js:44 | `JWT_SECRET` when set and non-empty, otherwise "epc"; never empty |
| Jwt.PayloadRoundTrip | backend/routes/auth.js:30 | decoding the encoded claims `{id, role, iat, exp}` gives them back |
| Jwt.Sign | backend/routes/auth.js:30 | with a base64url MAC, a signed token is non-empty, has no space, and splits at '.' into the header, the encoded `{id, role, iat, exp = iat + 3600}` and the MAC of the two |
| Jwt.Verify | backend/server.js:44-45 | a token is accepted iff it is signed with the secret (three segments, the header, a readable payload, the matching MAC) and `now` is before its `exp`, and then to its own payload; a signed token past `exp` is refused as expired, an unsigned one as malformed or badly signed |
| Jwt.SignThenVerify | backend/server.js:44-47 | a token signed at `issued` verifies under the same secret to its claims with `exp = iat + 3600` iff `now < issued + 3600`, and is otherwise refused as expired |
| Jwt.AcceptedTokensAreSigned | backend/server.js:44-47 | an accepted token carries the secret's MAC over its own header and payload, and `now` is before its `exp` |
| Jwt.OtherSecretRejected | backend/server.js:44-47 | a token signed under one secret is refused with a bad signature under a secret whose MAC differs |
| Tables.Filter | backend/routes/appointments.js:7 | `WHERE p` keeps exactly the matching rows (membership in both directions), in table order |
| Tables.FilterAppend | backend/routes/appointments.js:7 | a row appended to the table is appended to the filter exactly when it matches |
| Tables.FilterCount | backend/routes/pets.js:52-57 | the kept rows number `Count(p)`, and the rows a DELETE leaves number the rest |
| Tables.AtMostOneWithId | backend/routes/pets.js:52-55 | with distinct keys, a condition fixing `id` matches at most one row |
| Tables.Updated | backend/routes/services.js:43-46 | UPDATE rewrites exactly the matching rows, keeping their keys and the table order |
| Tables.SortDesc | backend/routes/pets.js:11 | ORDER BY DESC is a permutation of its input and is descending, NULL last |
| Tables.Select | backend/routes/pets.js:10-13 | `WHERE p ORDER BY k DESC`: the same multiset as the filter, exactly the matching rows, descending |
| Tables.Table.Insert | backend/routes/pets.js:27-31 | one row at the end, keyed by the old AUTO_INCREMENT value, which is returned as `insertId` |
| Tables.Table.DeleteWhere | backend/routes/pets.js:52-55 | the rows become those not matching, and `affectedRows` is the number that matched |
| Tables.Table.UpdateWhere | backend/routes/services.js:43-46 | the rows become their update under the condition; keys never change |
| Auth.FindByEmail | backend/routes/auth.js:14 | finds a row with the email, or none exactly when no row has it or the email is missing |
| Auth.FindUnique | backend/routes/auth.js:14 | with unique emails the lookup finds the one row holding the email |
| Auth.View | backend/routes/auth.js:66-70 | the reply's user is the row's id, name, email and role, never the digest |
| Auth.NewUser | backend/routes/auth.js:20-27 | the inserted row has role 'user', the given email and name, and a digest that matches the password |
| Auth.Register | backend/routes/auth.js:8-41 | 400 for a known email, 500 on failure (or on a missing email or password), both with no change; otherwise one appended row and 201 with a token for `{id, role}`; emails stay unique |
| Auth.Login | backend/routes/auth.js:44-75 | exactly the 500, 400 and 200 cases of the route; on 200, a fresh one-hour token for the stored row and its public view |
| Auth.UnknownEmailLikeWrongPassword | backend/routes/auth.js:51-61 | an unknown email and a wrong password that is given get the same 400 reply |
| Auth.MissingPasswordRevealsEmail | backend/routes/auth.js:50-58 | without a password, a known email gets 500 (the compare throws) while an unknown one gets 400, so the two are told apart |
| Auth.LoginAfterRegister | backend/routes/auth.js:58-70 | after a registration, the same email and password log in as the new id with role 'user', with a token that verifies for an hour |
| Auth.SecondRegisterIsDuplicate | backend/routes/auth.js:14-17 | once registered, the same email is found as the new row and refused |
| Server.ExtractToken | backend/server.js:37-38 | the extracted token came from a header, is non-empty and has no space |
| Server.SecondWord | backend/server.js:38 | the token is the second space-separated word, whatever the scheme and whatever follows |
| Server.ExtractedIsSecondWord | backend/server.js:38 | conversely, an extracted token is the word between the first space and the next space or the end |
| Server.NoSecondWord | backend/server.js:38-42 | a missing header, or one without a space, yields no token |
| Server.Authenticate | backend/server.js:36-49 | 401 iff no token is extracted; 403 iff `jwt.verify` refuses it; otherwise admitted with exactly the verified payload |
| Server.IssuedTokenAuthenticates | backend/server.js:44-47 | `Bearer` plus a token the issuer signed is admitted with its claims within the hour and refused with 403 afterwards |
| Server.Request.constructor | backend/server.js:36 | a request with its header, no `req.user` and no call to `next` yet |
| Server.AuthenticateToken | backend/server.js:36-49 | a refusal is answered and `next` is not called; an admitted request gets `req.user` and `next` is called exactly once |
| Server.RouteIn | backend/server.js:62-69 | the first mount whose prefix covers the path, or none when no prefix covers it |
| Server.Dispatch | backend/server.js:62-69 | an unmounted path goes nowhere; `/api/auth` is reached directly; any other mounted path is refused with the middleware's response or passed to its router with the admitted payload |
| Server.OnlyAuthIsOpen | backend/server.js:62-69 | every mount except `/api/auth` runs the middleware |
| Server.AuthRoutesOpen | backend/server.js:62 | every path under `/api/auth` opens without a token |
| Server.GuardedRoutesNeedToken | backend/server.js:63-69 | every other mounted path reaches its router iff the middleware admits the header, and then with the decoded payload |
| Pets.List | backend/routes/pets.js:6-19 | exactly the caller's pets (in both directions, as a multiset), newest first; 500 when the query fails |
| Pets.ListIsPrivate | backend/routes/pets.js:10-13 | another owner's rows have no effect on what the caller is shown |
| Pets.FilterOthers | backend/routes/pets.js:10-13 | dropping another owner's rows leaves this owner's rows as they were |
| Pets.Add | backend/routes/pets.js:22-45 | one row owned by the token's user, and a 201 echoing its id, owner, name, species and breed; 500 and no change on failure |
| Pets.Remove | backend/routes/pets.js:48-66 | removes the caller's pet with the id, at most one row; 404 iff none matches, with the table unchanged; other owners' pets are always kept |
| Services.List | backend/routes/services.js:5-17 | exactly the caller's bookings, newest first; 500 when the query fails |
| Services.Book | backend/routes/services.js:20-37 | one booking owned by the caller and its id in the 201 reply; 500 and no change on failure |
| Services.Complete | backend/routes/services.js:40-52 | the caller's booking with the id is marked completed; 200 whether or not it exists |
| Services.CompleteEffect | backend/routes/services.js:43-46 | only the caller's booking with the id changes, only to status Completed; all other rows are untouched |
| Services.CompleteIdempotent | backend/routes/services.js:43-47 | completing twice is completing once |
| Appointments.FromBody | backend/routes/appointments.js:19-22 | the row holds the caller as owner and the body's six fields unchanged |
| Appointments.List | backend/routes/appointments.js:5-13 | exactly the caller's appointments, in table order; 500 on failure |
| Appointments.Book | backend/routes/appointments.js:16-28 | one appended row owned by the caller and 201 with its id; 500 and no change on failure |
| Appointments.BookedIsListed | backend/routes/appointments.js:19-23 | a booked appointment is listed to its owner after those booked before it |
| Health.List | backend/routes/health.js:5-16 | exactly the records of the pet id, latest date first and undated last; 500 on failure |
| Health.Add | backend/routes/health.js:19-33 | one appended record with the seven given columns and 201; 500 and no change on failure |
| Health.AddedIsListed | backend/routes/health.js:8-11 | an added record is listed for a pet id iff it carries that id |
| ApiClient.LocalStorage.GetItem | frontend/database.js:7 | the stored value, or none exactly when the key is absent |
| ApiClient.LocalStorage.SetItem | frontend/database.js:50 | the key now maps to the value, and no other key changes |
| ApiClient.LocalStorage.RemoveItem | frontend/database.js:68-70 | the key is gone, and no other key changes |
| ApiClient.RequestHeaders | frontend/database.js:12-20 | the JSON content type, then the caller's headers over it, then `Authorization: Bearer <token>` exactly when a truthy token is held |
| ApiClient.Outgoing | frontend/database.js:11-26 | the URL is base plus endpoint; an Authorization header is present iff a token is held or the caller sent one |
| ApiClient.Settle | frontend/database.js:28-33 | a result iff the status is 2xx; otherwise the reply's error text, or the fallback when there is none |
| ApiClient.Database.constructor | frontend/database.js:4-8 | the client starts from the token saved in localStorage |
| ApiClient.Database.ApiCall | frontend/database.js:11-39 | the settled reply to the outgoing request, with fallback "API Request Failed"; nothing changes |
| ApiClient.Database.SaveSession | frontend/database.js:49-51 | the reply's token goes to the field and to localStorage ("undefined" when missing) |
| ApiClient.Database.Register | frontend/database.js:42-53 | on failure the error, with token and storage unchanged; on success the returned user, with the session saved |
| ApiClient.Database.Login | frontend/database.js:55-65 | on failure the error, with token and storage unchanged; on success the returned user, with the session saved |
| ApiClient.Database.Logout | frontend/database.js:67-71 | no token, and both session keys removed from storage |
| JsString.TrimStart | frontend/main.js:1408 | drops exactly the leading white space (ECMAScript WhiteSpace and LineTerminator) |
| JsString.TrimEnd | frontend/main.js:1408 | drops exactly the trailing white space |
| JsString.Trim | frontend/main.js:1408 | `trim()` keeps the slice of the value between its leading and its trailing white space, which starts and ends with another character when not empty |
| JsString.TrimBlank | frontend/main.js:1408 | `value.trim()` is empty iff the value is all white space |
| JsString.ParseInt | frontend/main.js:1430-1431 | `parseInt` is NaN exactly when, after white space and one sign, no decimal digit comes first or a `0x` prefix has no hex digit behind it; only a minus sign makes it negative |
| JsString.ParseIntOrZero | frontend/main.js:1430-1431 | `parseInt(v) \|\| 0` is 0 when there is no number to read, and the number read otherwise |
| JsString.ParseIntOfDecimal | frontend/main.js:1430-1431 | a decimal number after white space and before a non-digit reads back as itself |
| Platform.Database.constructor | frontend/main.js:3-6 | the client starts from the token saved in localStorage |
| Platform.Database.ApiCall | frontend/main.js:9-30 | the settled reply with fallback "API error"; nothing changes |
| Platform.Database.Login | frontend/main.js:33-42 | on success the returned user, with the token kept in the field and in localStorage; on failure nothing changes |
| Platform.Database.Register | frontend/main.js:44-50 | the returned user or the error; neither the token nor storage changes |
| Platform.Toggled | frontend/main.js:785 | the new theme is light or dark, and dark iff the old one was light |
| Platform.ToggleTwice | frontend/main.js:785 | toggling twice restores the theme iff it was light or dark |
| Platform.PetCarePlatform.constructor | frontend/main.js:167-174 | no user, no pets, no notifications, the light theme |
| Platform.PetCarePlatform.ToggleTheme | frontend/main.js:784-795 | the theme flips and the new theme is saved under `theme` |
| Platform.Stamped | frontend/main.js:1284-1287 | the notification's own id wins over the clock, and every other field is kept |
| Platform.UnreadCount | frontend/main.js:1297 | at most the number of notifications, and zero iff every one is read |
| Platform.AddedCount | frontend/main.js:1289-1297 | a new notification adds one to the unread count iff it is unread |
| Platform.PetCarePlatform.AddNotification | frontend/main.js:1283-1294 | the stamped notification goes first, the rest keep their order, and the badge shows the new unread count |
| Platform.PetCarePlatform.UpdateNotificationBadge | frontend/main.js:1296-1304 | the badge shows the unread count and is displayed iff that count is positive |
| Platform.FindNotification | frontend/main.js:1307 | the index of the first notification with the id, or none when no notification has it |
| Platform.MarkedRead | frontend/main.js:1306-1312 | the list keeps its length; no notification changes anything but its read flag or becomes unread; the first one with the id is read |
| Platform.MarkedReadEffect | frontend/main.js:1306-1312 | only the first notification with the id changes, and only its read flag; an unknown id changes nothing |
| Platform.MarkedReadIdempotent | frontend/main.js:1306-1312 | marking twice is marking once |
| Platform.MarkedReadCount | frontend/main.js:1306-1310 | marking an unread notification lowers the unread count by one; anything else leaves it unchanged |
| Platform.PetCarePlatform.MarkNotificationAsRead | frontend/main.js:1306-1312 | the list becomes the marked list; the badge is refreshed iff some notification had the id |
| Platform.Reduce | frontend/main.js:1194 | the fold from any start value is that value plus every quantity |
| Platform.EmptyCartHidden | frontend/main.js:1194-1199 | with no negative quantities, the counter is hidden iff every quantity is zero |
| Platform.PetCarePlatform.UpdateCartCounter | frontend/main.js:1190-1204 | for a logged-in user with a fetched cart, the counter shows the total quantity; otherwise it is unchanged |
| Platform.MarksEffect | frontend/main.js:1406-1414 | after validation, a required field has the error border iff it is blank; other fields keep theirs |
| Platform.PetCarePlatform.CheckRequired | frontend/main.js:1403-1414 | `isValid` iff no required field is blank, and the borders are those `Marks` gives |
| Platform.PetCarePlatform.HandleAddPetForm | frontend/main.js:1401-1448 | each required field is marked iff blank; an invalid form adds nothing; a valid one appends exactly the pet the form describes |
| Platform.DefaultPetImage | frontend/main.js:1469-1479 | the species' own picture, and the dog's picture exactly for dogs and unlisted species |
| Platform.NewPet | frontend/main.js:1422-1445 | the new pet has the given id, owner and time, the name, species, location, phone, vaccination, neutering and both notes exactly as typed, and the species' default picture |
| Platform.NewPetFields | frontend/main.js:1422-1445 | empty fields get their defaults, filled fields are kept, decimal ages read as their numbers, and there are no records and no appointment |
| Platform.EmptyAgesAreZero | frontend/main.js:1430-1431 | empty age fields give zero years and zero months |
| Platform.PetCarePlatform.HandleLogout | frontend/main.js:1245-1257 | the saved user and token leave localStorage, and nothing else is stored or removed |
| EndToEnd.HeldTokenAdmitted | backend/server.js:36-47 | the header the client builds from an issued token is admitted with its claims within the hour, and refused with 403 afterwards |
| EndToEnd.LoggedOutRefused | backend/server.js:37-42 | a client without a token gets 401 on every guarded route |
| EndToEnd.Walkthrough | backend/routes/auth.js:8-75 | on an empty table: register gives 201 with a token, a second register gives 400, login gives 200 as the same id, `/api/pets` admits that id, and the request is refused with 403 after an hour and with 401 without a header |

## Left out

- Bcrypt.Hash: Blowfish itself is the uninterpreted parameter `kdf`. The random salt from `genSalt` is a parameter. The 72-byte password truncation of bcrypt is not modelled.
- Jwt.Sign: the token is not base64url-encoded JSON. The payload is a textual encoding of the four claims that holds neither '.' nor ' ', and the HMAC is the uninterpreted parameter `mac`. "Any change to a token is refused" cannot be proved for an arbitrary `mac`. `Jwt.AcceptedTokensAreSigned` states what can be: only a token carrying the secret's MAC is accepted.
- Auth.Register: two concurrent registrations with the same email can both pass the lookup. The unique index then makes the second INSERT throw, which the catch turns into 500, not the 400 of a duplicate. The model runs one request at a time, so this race and its 500 are not modelled. The code's 500 is followed here, not a dedicated duplicate error.
- Auth.FindByEmail: compares emails exactly. The case-insensitive collation MySQL may apply is not modelled.
- Tables: no connection pool, timeouts or transactions. Every failure is the single flag `fault`.
- Tables: ids are integers in the model. MySQL's conversion of the `:id` path string to a number is not modelled: it reads '5abc' as 5, and in strict mode it can raise an error, which the routes turn into 500.
- NOT NULL constraints and column defaults of the pets, service, appointment and health tables are not modelled, apart from the users table's NOT NULL email.
- `created_at` is the parameter `now`; `date_recorded` is an integer ordered like the column.
- Appointments.List: the query has no ORDER BY, so MySQL may return the rows in any order. Table order is a choice of the model, and so is the "after those booked before it" of `Appointments.BookedIsListed`.
- Services.Book: the status of a new booking is the schema default, written `AsBooked`. The default's text is not modelled.
- Server: Express's case-insensitive paths, the root route, static files, and the cart, forum and adoptions routers are not modelled.
- ApiClient.Database.ApiCall: `response.json()` parsing errors and network failures are not modelled. A reply is a status and a body.
- The thin `getPets`/`addPet`-style wrappers of both clients are not modelled; each is one `ApiCall`.
- Platform.PetCarePlatform.constructor: `init()` is not run: the demo pets and demo notifications of `initializeData`, the user read from localStorage by `loadUserData`, and the stored theme are not loaded. The appointment, adoption, forum and shop lists are not fields of the model.
- Platform: no DOM, toasts, `applyTheme`, theme button text, redirect timers, modals or notification timer.
- `generateId`, `Date.now` and ISO date strings are parameters.
- Platform.PetCarePlatform.HandleAddPetForm: `weight` (`parseFloat`, floating point), the later `window.database.addPet` call and `form.reset()` are not modelled.
- Platform.DefaultPetImage: JavaScript prototype keys such as "constructor" are treated as unlisted species.
- Platform.FindNotification: the loose `==` between ids is modelled as integer equality.
- Platform.IsUnread: a notification whose `isRead` is missing counts as unread.
- JsString.ParseInt: values beyond 2^53 are exact integers here, whereas JavaScript rounds them.
