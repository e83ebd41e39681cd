# User accounts controller, modelled in Dafny

This project models the account handlers of an Express/Sequelize back end
(`controllers/Users.js`): registration, login with a signed access token,
reading the current user, logout, profile update with an image upload,
password change and account deletion. All of them share one `User` table.
A login stores the issued token in the row's `refresh_token` column. The
update and delete handlers accept a request only when its bearer token
verifies and equals the stored one.

Layout:

- `wrappers.dfy` holds `Option`.
- `js_text.dfy` models the JavaScript text operations the handlers use:
  `split(" ")[1]` on the `Authorization` header and ASCII `toLowerCase`.
- `node_path.dfy` models Node's POSIX `path.extname`, including trailing
  slashes, dot-files and `..`.
- `libraries.dfy` models bcrypt and jsonwebtoken as records of functions.
  `BcryptSound` and `JwtSound` state what the handlers rely on them for.
  The clock is the `now` argument of sign and verify.
- `accounts.dfy` holds the `User` row, the table with its auto-increment
  counter (`Db`), the store invariant and `findOne`.
- `images.dfy` holds the image rule of the profile update: default image,
  allow-list, 5 MB limit and the stored file name.
- `handlers.dfy` has one function per handler. Each maps a store and a
  request to the new store, the HTTP response and the file operation
  started (a move of the upload or an unlink).
- `sessions.dfy` holds lemmas that relate several handlers: register then
  login, login then the guard, logout twice, revocation by logout and by
  delete, and the invariant that every stored token names its holder.
- `controller.dfy` holds the class `Controller.Users`. Its fields are the
  table and the counter, which the handler methods update in place, step by
  step. Each method is proved to produce exactly the store and response of
  its `Handlers` function. Files moved or unlinked are recorded in a ghost
  log.

The model follows the code, including three places where it answers
differently than one might expect:

- A token that `jwt.verify` rejects makes `jwt.verify` throw. The catch
  block answers 500, not 401, in Me, the profile update and delete.
- Register's success message is the Indonesian "Register Berhasil".
- The profile update never writes the row (see Findings).

## Model

| member | source | states |
|---|---|---|
| JsText.Split | controllers/Users.js:94 | `split` yields at least one field, no field contains the separator, and a text without the separator is its only field |
| JsText.JoinSplit | controllers/Users.js:94 | joining the fields of `split` with the separator gives back the original text |
| JsText.SplitFirst | controllers/Users.js:94 | a text starting with a separator-free field and a separator splits into that field followed by the split of the rest |
| JsText.BearerToken | controllers/Users.js:93-95 | a token taken from the header is non-empty and has no space; a missing header, or one without a space, gives no token |
| JsText.BearerTokenOf | controllers/Users.js:93-95 | for a scheme and a token without spaces, `scheme + " " + token` (with or without a trailing part after another space) yields exactly that token |
| JsText.BearerTokenSound | controllers/Users.js:93-95 | any token found is the second space-separated field: the header is scheme, one space, the token, then nothing or a part starting with a space |
| JsText.LowerAscii | controllers/Users.js:157 | lower-casing keeps the length and lower-cases each character |
| NodePath.TrimTrailingSlashes | controllers/Users.js:153 | the result is a prefix of the path that is empty or does not end in `/`, and only `/` characters were removed |
| NodePath.Basename | controllers/Users.js:153 | the base name is a suffix of the path without `/`, preceded by `/` or the start of the path |
| NodePath.LastIndex | controllers/Users.js:153 | the index found holds the character and no later index does; none is found exactly when the character is absent |
| NodePath.Extname | controllers/Users.js:153 | the extension is empty or starts with its only `.`, has no `/`, and ends the path once trailing slashes are removed |
| NodePath.BasenameAfterDir | controllers/Users.js:153 | a directory ending in `/`, followed by a name without `/`, has that name as its base name |
| NodePath.LastIndexBefore | controllers/Users.js:153 | the last occurrence of a character followed by a text without it is found at its own position |
| NodePath.ExtnameOf | controllers/Users.js:153 | a directory (empty or ending in `/`), a non-empty stem without `/` and an extension of a dot and at least one more character, none of them `.` or `/`, has exactly that extension |
| Accounts.SessionsDistinct | controllers/Users.js:65-82 | when every stored token names its holder, two rows never hold the same token |
| Accounts.MinExists | controllers/Users.js:26 | a set with an element has a smallest element |
| Accounts.MinOf | controllers/Users.js:26 | the chosen key is in the set and no key of the set is smaller |
| Accounts.FindOne | controllers/Users.js:26 | `findOne` finds nothing exactly when no row matches; otherwise it finds the smallest matching key |
| Accounts.FindOneUnique | controllers/Users.js:52 | when a single row matches, `findOne` finds it |
| Accounts.FindByUsernameUnique | controllers/Users.js:26 | in a valid store, looking up a row's username finds that row |
| Accounts.ClaimsOf | controllers/Users.js:63-75 | the token payload carries the row's id as `userId` and exactly the row's username, name, email, phone, role, image and url |
| Images.ImageOrDefault | controllers/Users.js:149 | the stored image name is never empty; a non-empty current image is kept; a null or empty one becomes "default.png" |
| Images.ImageRule | controllers/Users.js:149-162 | no upload keeps the current image or the default; an upload is refused as invalid type exactly when its lower-cased extension is not `.png`, `.jpg` or `.jpeg`; it is refused as too large exactly when the type passes and the size exceeds 5000000; an accepted upload is named MD5 plus extension and moved into `./public/images/` |
| Images.AcceptedNameHasAllowedExtension | controllers/Users.js:153-162 | an upload with an allowed type within the size limit is accepted; its stored name is longer than the digest, and what follows the digest is an allowed extension once lower-cased |
| Images.LowerPng | controllers/Users.js:157 | `.PNG` lower-cases to `.png` |
| Images.PngExtension | controllers/Users.js:153-157 | any path ending in `stem.PNG` has extension `.PNG` and an allowed type |
| Images.UpperCasePngAccepted | controllers/Users.js:149-164 | a small upload named `….PNG` is accepted and stored as its digest plus `.PNG`, the case kept |
| Images.DotfileHasNoExtension | controllers/Users.js:153 | a file called `.png` has no extension |
| Images.DotfileRefused | controllers/Users.js:153-158 | an upload called `.png` is refused as an invalid type |
| Handlers.NewAccount | controllers/Users.js:36-41 | a new row holds the given username, email and password hash, has role "user", and has no session, profile fields or image |
| Handlers.InsertKeepsValid | controllers/Users.js:36-41 | adding a row under the next key, with a username no row has, keeps the store valid |
| Handlers.ReplaceKeepsValid | controllers/Users.js:82 | rewriting a row without changing its username keeps the store valid |
| Handlers.Register | controllers/Users.js:22-48 | the answer is 404 exactly when the username is taken, with the store unchanged; otherwise 200 "Register Berhasil" and exactly one new row under a fresh key, holding the bcrypt hash; validity is preserved |
| Handlers.Login | controllers/Users.js:50-89 | 404 exactly when no row has the email; 200 exactly when the row found accepts the password; 400 "Wrong Password" otherwise; on success the answer is the token signed over that row's claims and its role, only that row's session is replaced, and otherwise nothing changes |
| Handlers.Present | controllers/Users.js:93-97 | no credential exactly when no bearer token is found, a bad credential exactly when `jwt.verify` rejects it, otherwise the token and its verified payload |
| Handlers.Authenticate | controllers/Users.js:137-147 | the guard of update and delete: it is missing or invalid exactly as the header and `jwt.verify` say; it is denied exactly when the payload's user is absent or stores another token; when granted, the token verifies, names the row and is the row's stored session |
| Handlers.Me | controllers/Users.js:91-110 | no token gives 401; 500 exactly when verification fails; 200 exactly when the payload's user exists, with that row; the stored session is not consulted |
| Handlers.Logout | controllers/Users.js:112-133 | 204 exactly when there is no token or no row stores it, with nothing changed; otherwise the row found loses its session and nothing else changes (200); the token's signature is never checked |
| Handlers.OrNull | controllers/Users.js:176-180 | `value \|\| null`: a missing or empty text becomes null and a non-empty one is kept |
| Handlers.Profile | controllers/Users.js:174-186 | the rewritten row's name, email, phone, alamat and url are the form's values `\|\| null`; it keeps its username, password hash and session, gets role "user", and gets the image chosen by the rule (the default when that is empty) |
| Handlers.ProfileUpdate | controllers/Users.js:149-189 | after the guard: 422 exactly when the image rule refuses, with nothing changed; otherwise 200 with only the caller's row rewritten to its profile; validity is preserved |
| Handlers.UpdateUsersWithToken | controllers/Users.js:135-194 | as written: the store never changes; 401 exactly when the token is missing or denied; 422 exactly when the guard passes and the image rule refuses; a move is started exactly when an accepted upload passes the guard, and only into the images directory under the accepted name; every other request gets 500 |
| Handlers.UpdateUsersWithTokenFixed | controllers/Users.js:135-194 | corrected: 200 exactly when the guard passes and the image rule accepts, and then only the caller's row is rewritten; every other answer leaves the store unchanged; validity is preserved |
| Handlers.UpdatePassword | controllers/Users.js:196-215 | as written: 500 exactly when no row has the email, with nothing changed; otherwise the row found gets the hash of the new password, keeps its session, and no other row changes |
| Handlers.UpdatePasswordFixed | controllers/Users.js:196-215 | corrected: 404 "User not found" exactly when no row has the email, with nothing changed; otherwise it behaves as written |
| Handlers.DeleteUser | controllers/Users.js:217-247 | 200 exactly when the guard grants, and then exactly the caller's row is removed; 401 exactly when the token is missing or denied; an unlink is started only for a row with an image of its own, and the default image is never unlinked; other answers change nothing |
| Sessions.BearerHeaderCarries | controllers/Users.js:93-95 | a `Bearer <token>` header yields the token |
| Sessions.RegisterTwice | controllers/Users.js:22-48 | registering the same username twice: the second call answers 404 and changes nothing |
| Sessions.RegisterThenLogin | controllers/Users.js:22-89 | a fresh account whose email no other row has logs in with its password, gets role "user", and its row stores the token returned |
| Sessions.LoginThenAuthenticate | controllers/Users.js:50-147 | the token a login returns, sent as a bearer header at the time it was issued, passes the guard for the row that logged in, and Me returns that row |
| Sessions.LoginSupersedes | controllers/Users.js:82 | after a login, any other token whose payload names that row is refused by the guard at any later time |
| Sessions.LogoutTwice | controllers/Users.js:112-133 | when every stored token names its holder, logging out twice with the same header gives 204 the second time, with nothing changed |
| Sessions.LogoutRevokes | controllers/Users.js:126 | after a successful logout the same header is refused by the guard, and delete with it answers 401 or 500 and removes nothing |
| Sessions.DeleteRevokes | controllers/Users.js:240 | after a successful delete the same header is refused by the guard at any later time |
| Sessions.MeIgnoresSessions | controllers/Users.js:97-105 | Me's status depends on the rows apart from their session slots only |
| Sessions.MeAfterLogout | controllers/Users.js:97-105 | logging out does not change what status Me gives for any header |
| Sessions.UpdatePasswordKeepsSessions | controllers/Users.js:205-208 | changing a password leaves the guard's answer unchanged for every header |
| Sessions.SessionsBoundWithoutNewSessions | controllers/Users.js:82 | a step that only clears sessions or keeps them keeps every stored token naming its holder |
| Sessions.LoginKeepsSessionsBound | controllers/Users.js:65-82 | login keeps every stored token naming its holder |
| Sessions.RegisterKeepsSessionsBound | controllers/Users.js:36-41 | register keeps every stored token naming its holder |
| Sessions.LogoutKeepsSessionsBound | controllers/Users.js:126 | logout keeps every stored token naming its holder |
| Sessions.UpdatePasswordKeepsSessionsBound | controllers/Users.js:205-208 | a password change keeps every stored token naming its holder |
| Sessions.DeleteKeepsSessionsBound | controllers/Users.js:240 | delete keeps every stored token naming its holder |
| Sessions.UpdateFixedKeepsSessionsBound | controllers/Users.js:174-187 | the corrected profile update keeps every stored token naming its holder |
| Sessions.UpdateAsWrittenNeverApplies | controllers/Users.js:184 | every request the corrected update carries out gets 500 as written, with the store unchanged |
| Sessions.UpdateAfterLogin | controllers/Users.js:135-194 | right after a login, an update with the returned token and no upload gets 500 as written and 200 once corrected |
| Sessions.UpdatePasswordUnknownEmail | controllers/Users.js:198-208 | an unknown email gets 500 as written and 404 once corrected, and neither changes the store |
| Controller.Users.constructor | controllers/Users.js:7 | the table starts empty, with the counter at 1 and no file operations |
| Controller.Users.Register | controllers/Users.js:22-48 | the method's lookup, hash and insert leave the table and answer exactly as `Handlers.Register`, and keep the store valid |
| Controller.Users.Login | controllers/Users.js:50-89 | the method's lookup, compare, sign and session write leave the table and answer exactly as `Handlers.Login` |
| Controller.Users.Me | controllers/Users.js:91-110 | the method reads the table and answers exactly as `Handlers.Me` |
| Controller.Users.Logout | controllers/Users.js:112-133 | the method's lookup by token and session clear leave the table and answer exactly as `Handlers.Logout` |
| Controller.Users.Guard | controllers/Users.js:137-147 | the steps of the token check give exactly `Handlers.Authenticate` |
| Controller.Users.TakeUpload | controllers/Users.js:149-169 | the decision is `Images.ImageRule`; the table is untouched; the move is logged only for an accepted upload |
| Controller.Users.UpdateUsersWithToken | controllers/Users.js:135-194 | the table, answer and file log end exactly as `Handlers.UpdateUsersWithToken` says |
| Controller.Users.ApplyProfile | controllers/Users.js:149-189 | the table, answer and file log end exactly as `Handlers.ProfileUpdate` says |
| Controller.Users.UpdateUsersWithTokenFixed | controllers/Users.js:135-194 | the table, answer and file log end exactly as `Handlers.UpdateUsersWithTokenFixed` says |
| Controller.Users.UpdatePassword | controllers/Users.js:196-215 | the table and answer end exactly as `Handlers.UpdatePassword` says |
| Controller.Users.UpdatePasswordFixed | controllers/Users.js:196-215 | the table and answer end exactly as `Handlers.UpdatePasswordFixed` says |
| Controller.Users.DeleteUser | controllers/Users.js:217-247 | the table, answer and file log end exactly as `Handlers.DeleteUser` says |

## Left out

- `getUsers` (lines 12-20) is a plain read of the whole table; it is not modelled.
- The secret key and its environment fallback (lines 9-10) are not modelled; `jwt` is a parameter and signing, verification and expiry ("1d") are the functions it holds.
- The internals of bcrypt and JWT are not modelled. `BcryptSound` states only that a password matches its own hash; nothing is assumed about other passwords, since bcrypt reads only the first 72 bytes. `JwtSound` states what a token carries and when it verifies. `genSalt` becomes a `salt` parameter.
- File I/O is left out. `file.mv` and `fs.unlink` are only recorded as started. Their callbacks are not modelled, including the 500 the move callback tries to send after the response may already be out.
- Store failures, hashing failures and missing request fields are not modelled. These are the other paths that reach the catch blocks and answer 500.
- Accounts.FindOne: the ORM's `findOne` on a non-key column returns some matching row, in an order the model fixes as the smallest key.
- JsText.LowerAscii: `toLowerCase` is modelled for ASCII letters only; other characters are kept.
- Uploads that arrive as several files under one field name are not modelled; an upload is one file.
- The column default for `image` is defined in models/UserModel.js, which is not part of this model, so a new row has a null image.
- Response bodies sent with status 204 are kept in the model, although HTTP drops them.
- Logging (`console.error`) is left out.
- Requests are treated as serialized: each handler is one atomic step. The source awaits between its lookup and its write (Register lines 26 and 36, Login 52 and 82, Logout 118 and 126, update and delete 143/225 and 174/240), so interleaved requests are not modelled. Two concurrent Registers with the same username could both insert, so `UniqueUsernames` holds only for requests handled one at a time.
- The server is assumed to run on a POSIX platform: `path.extname` follows the host, and on win32 `\` would also separate path segments.
- Handlers.UpdateUsersWithTokenFixed: keeps the username and password hash instead of writing `user.username || null` and `user.password || null`. The model's username and hash are non-null strings, so the only difference is that an empty username (which Register accepts) is kept rather than set to null.

## Findings

| source | as written | input that shows it | evidently intended | confidence | as-written member | corrected member |
|---|---|---|---|---|---|---|
| controllers/Users.js:184 | the update object reads `url`, which is bound nowhere in the handler, so building it throws a ReferenceError and the catch answers 500; the row is never written, although an accepted image has already been moved | a valid login, then `PUT` with that bearer token, any form and no file | `url` bound to some value (its intended source is unknown), the row rewritten, answer 200 | high, not executed | Handlers.UpdateUsersWithToken, Sessions.UpdateAsWrittenNeverApplies, Sessions.UpdateAfterLogin | Handlers.UpdateUsersWithTokenFixed |
| controllers/Users.js:198-207 | `user.id` is read without checking that `findOne` found a row, so an unknown email throws and the catch answers 500 | an email no row has, any password | a 404 "User not found" as in Login, with nothing changed | high, not executed | Handlers.UpdatePassword, Sessions.UpdatePasswordUnknownEmail | Handlers.UpdatePasswordFixed |
