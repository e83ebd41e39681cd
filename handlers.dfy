/**
 * The seven request handlers of controllers/Users.js as functions from the
 * store before the request to the store after it, the response, and the file
 * operation the handler starts without waiting for it. Every exception the
 * handlers catch (an invalid token, the unbound `url`, a null row) ends in
 * the generic 500 response with the store as it was.
 */
module Handlers {
  import opened Wrappers
  import opened JsText
  import opened Libraries
  import opened Accounts
  import opened Images

  datatype Body =
    | Message(msg: string)
    | Session(accessToken: string, role: string)
    | Record(id: UserId, user: User)

  datatype Response = Response(status: int, body: Body)

  /** `file.mv(to)` and `fs.unlink(path)`, started and not awaited. */
  datatype FileOp = MoveUpload(to: string) | Unlink(path: string)

  datatype Outcome = Outcome(db: Db, response: Response, fileOp: Option<FileOp>)

  const ServerError := Response(500, Message("Internal server error"))
  const Unauthorized := Response(401, Message("Unauthorized"))

  /** The row Register creates: no profile, no image, no session, role "user". */
  function NewAccount(username: string, email: string, passwordHash: string): (u: User)
    ensures u.username == username && u.email == Some(email) && u.passwordHash == passwordHash
    ensures u.role == "user" && u.refreshToken.None?
    ensures u.name.None? && u.phone.None? && u.alamat.None? && u.url.None? && u.image.None?
  {
    User(username, Some(email), passwordHash, "user", None, None, None, None, None, None)
  }

  /** Everything a row holds outside its session slot. */
  function WithoutSession(u: User): User
  {
    u.(refreshToken := None)
  }

  predicate UsernameTaken(users: Table, username: string)
  {
    exists id :: id in users && users[id].username == username
  }

  predicate EmailUnknown(users: Table, email: string)
  {
    forall id :: id in users ==> users[id].email != Some(email)
  }

  /** Register: refuses a taken username with 404 and otherwise adds exactly one
    * row, under a fresh key, holding the bcrypt hash of the password. */
  function Register(db: Db, username: string, email: string, password: string, salt: string, bcrypt: Bcrypt): (o: Outcome)
    ensures o.fileOp.None?
    ensures o.response.status == 404 <==> UsernameTaken(db.users, username)
    ensures o.response.status == 404 ==>
      o.db == db && o.response.body == Message("Username sudah ada! Ganti username!")
    ensures o.response.status != 404 ==> o.response == Response(200, Message("Register Berhasil"))
    ensures o.response.status != 404 && Valid(db) ==>
      && db.nextId !in db.users
      && o.db.users.Keys == db.users.Keys + {db.nextId}
      && o.db.users[db.nextId] == NewAccount(username, email, bcrypt.hash(password, salt))
      && (forall id :: id in db.users ==> o.db.users[id] == db.users[id])
    ensures Valid(db) ==> Valid(o.db)
  {
    var existing := FindOne(db.users, UsernameIs(username));
    if existing.Some? then
      Outcome(db, Response(404, Message("Username sudah ada! Ganti username!")), None)
    else
      var hashPassword := bcrypt.hash(password, salt);
      var id := db.nextId;
      var users := db.users[id := NewAccount(username, email, hashPassword)];
      assert forall other :: other in db.users ==> db.users[other].username != username;
      InsertKeepsValid(db, NewAccount(username, email, hashPassword));
      Outcome(Db(users, db.nextId + 1), Response(200, Message("Register Berhasil")), None)
  }

  /** A row under the next key with a username no row has keeps the store valid. */
  lemma InsertKeepsValid(db: Db, u: User)
    requires forall other :: other in db.users ==> db.users[other].username != u.username
    ensures Valid(db) ==> Valid(Db(db.users[db.nextId := u], db.nextId + 1))
  {
    if Valid(db) {
      var users := db.users[db.nextId := u];
      forall a, b | a in users && b in users && users[a].username == users[b].username
        ensures a == b
      {
        if a != db.nextId && b != db.nextId {
          assert db.users[a].username == db.users[b].username;
        }
      }
    }
  }

  /** Rewriting a row without renaming it keeps the store valid. */
  lemma ReplaceKeepsValid(db: Db, id: UserId, v: User)
    requires id in db.users && v.username == db.users[id].username
    ensures Valid(db) ==> Valid(Db(db.users[id := v], db.nextId))
  {
    if Valid(db) {
      var users := db.users[id := v];
      forall a, b | a in users && b in users && users[a].username == users[b].username
        ensures a == b
      {
        assert db.users[a].username == db.users[b].username;
      }
    }
  }

  /** Login: 404 for an unknown email, 400 when the password does not match the
    * row found; both leave every session as it was. On success only that row's
    * session becomes the newly signed token, which is returned with the role. */
  function Login(db: Db, email: string, password: string, bcrypt: Bcrypt, jwt: Jwt, now: int): (o: Outcome)
    ensures o.fileOp.None? && o.db.nextId == db.nextId && o.db.users.Keys == db.users.Keys
    ensures o.response.status == 404 <==> EmailUnknown(db.users, email)
    ensures o.response.status == 404 ==> o.response.body == Message("User not found")
    ensures o.response.status == 400 ==> o.response.body == Message("Wrong Password")
    ensures o.response.status != 200 ==> o.db == db
    ensures var found := FindOne(db.users, EmailIs(email));
      o.response.status == 200 <==>
        found.Some? && bcrypt.compare(password, db.users[found.value].passwordHash)
    ensures o.response.status in {200, 400, 404}
    ensures o.response.status == 200 ==>
      var id := FindOne(db.users, EmailIs(email)).value;
      var u := db.users[id];
      && db.users[id].email == Some(email)
      && o.response.body == Session(jwt.sign(ClaimsOf(id, u), now), u.role)
      && o.db.users[id] == u.(refreshToken := Some(o.response.body.accessToken))
      && (forall other :: other in db.users && other != id ==> o.db.users[other] == db.users[other])
    ensures Valid(db) ==> Valid(o.db)
  {
    var found := FindOne(db.users, EmailIs(email));
    if found.None? then
      Outcome(db, Response(404, Message("User not found")), None)
    else
      var id := found.value;
      var user := db.users[id];
      if !bcrypt.compare(password, user.passwordHash) then
        Outcome(db, Response(400, Message("Wrong Password")), None)
      else
        var accessToken := jwt.sign(ClaimsOf(id, user), now);
        var users := db.users[id := user.(refreshToken := Some(accessToken))];
        Outcome(Db(users, db.nextId), Response(200, Session(accessToken, user.role)), None)
  }

  /** What a request's `Authorization` header proves: no token, a token that
    * `jwt.verify` rejects, or a token together with its verified payload. */
  datatype Credential = NoToken | BadToken | Claimed(token: string, claims: Claims)

  function Present(authorization: Option<string>, jwt: Jwt, now: int): (c: Credential)
    ensures c == NoToken <==> BearerToken(authorization).None?
    ensures c == BadToken <==>
      BearerToken(authorization).Some? && jwt.verify(BearerToken(authorization).value, now).None?
    ensures c.Claimed? ==>
      BearerToken(authorization) == Some(c.token) && jwt.verify(c.token, now) == Some(c.claims)
  {
    match BearerToken(authorization)
    case None => NoToken
    case Some(token) =>
      match jwt.verify(token, now)
      case None => BadToken
      case Some(claims) => Claimed(token, claims)
  }

  /** The guard of update and delete: a verified token whose user exists and
    * whose stored session is exactly that token. */
  datatype Auth = Missing | Invalid | Denied | Granted(id: UserId, token: string)

  function Authenticate(db: Db, authorization: Option<string>, jwt: Jwt, now: int): (a: Auth)
    ensures a == Missing <==> BearerToken(authorization).None?
    ensures a == Invalid <==>
      BearerToken(authorization).Some? && jwt.verify(BearerToken(authorization).value, now).None?
    ensures a.Granted? ==>
      && BearerToken(authorization) == Some(a.token)
      && jwt.verify(a.token, now).Some? && jwt.verify(a.token, now).value.userId == a.id
      && a.id in db.users && db.users[a.id].refreshToken == Some(a.token)
    ensures a == Denied <==>
      Present(authorization, jwt, now).Claimed? &&
      var c := Present(authorization, jwt, now);
      c.claims.userId !in db.users || db.users[c.claims.userId].refreshToken != Some(c.token)
  {
    match Present(authorization, jwt, now)
    case NoToken => Missing
    case BadToken => Invalid
    case Claimed(token, claims) =>
      var id := claims.userId;
      if id !in db.users || db.users[id].refreshToken != Some(token) then Denied
      else Granted(id, token)
  }

  /** Me: the row named by a verified token, whatever its stored session holds.
    * 401 without a token or without the row, 500 when verification throws. */
  function Me(db: Db, authorization: Option<string>, jwt: Jwt, now: int): (r: Response)
    ensures BearerToken(authorization).None? ==> r == Unauthorized
    ensures r.status == 500 <==> Present(authorization, jwt, now) == BadToken
    ensures r.status == 200 <==>
      Present(authorization, jwt, now).Claimed? && Present(authorization, jwt, now).claims.userId in db.users
    ensures r.status == 200 ==>
      var id := Present(authorization, jwt, now).claims.userId;
      r.body == Record(id, db.users[id])
    ensures r.status in {200, 401, 500}
  {
    match Present(authorization, jwt, now)
    case NoToken => Unauthorized
    case BadToken => ServerError
    case Claimed(_, claims) =>
      if claims.userId in db.users then Response(200, Record(claims.userId, db.users[claims.userId]))
      else Unauthorized
  }

  /** Logout: 204 without a token or when no row holds it, and nothing changes;
    * otherwise exactly the row found loses its session, and 200. The token's
    * signature is never checked. */
  function Logout(db: Db, authorization: Option<string>): (o: Outcome)
    ensures o.fileOp.None? && o.db.nextId == db.nextId && o.db.users.Keys == db.users.Keys
    ensures o.response.status in {200, 204}
    ensures o.response.status == 204 <==>
      BearerToken(authorization).None? ||
      forall id :: id in db.users ==> db.users[id].refreshToken != BearerToken(authorization)
    ensures o.response.status == 204 ==> o.db == db
    ensures o.response.status == 200 ==>
      var id := FindOne(db.users, RefreshTokenIs(BearerToken(authorization).value)).value;
      && db.users[id].refreshToken == BearerToken(authorization)
      && o.db.users[id] == db.users[id].(refreshToken := None)
      && (forall other :: other in db.users && other != id ==> o.db.users[other] == db.users[other])
      && o.response == Response(200, Message("Logout successful"))
    ensures forall id :: id in db.users ==> WithoutSession(o.db.users[id]) == WithoutSession(db.users[id])
    ensures Valid(db) ==> Valid(o.db)
  {
    match BearerToken(authorization)
    case None => Outcome(db, Response(204, Message("No token provided")), None)
    case Some(token) =>
      match FindOne(db.users, RefreshTokenIs(token))
      case None => Outcome(db, Response(204, Message("User not found or already logged out")), None)
      case Some(id) =>
        var users := db.users[id := db.users[id].(refreshToken := None)];
        Outcome(Db(users, db.nextId), Response(200, Message("Logout successful")), None)
  }

  /** The form fields of a profile update (`url` is not among the fields the
    * handler reads from the body). */
  datatype ProfileForm = ProfileForm(
    name: Option<string>,
    email: Option<string>,
    phone: Option<string>,
    alamat: Option<string>,
    url: Option<string>)

  /** updateUsersWithToken as written: after the guard and the image rule, the
    * update object reads the unbound identifier `url`, which throws. So the
    * row is never written: the handler answers 401, 422 or 500, and an
    * accepted upload has already been sent on its way to the images directory. */
  function UpdateUsersWithToken(db: Db, authorization: Option<string>, upload: Option<Upload>,
                                form: ProfileForm, jwt: Jwt, now: int): (o: Outcome)
    ensures o.db == db
    ensures o.response.status in {401, 422, 500}
    ensures o.response.status == 401 <==> Authenticate(db, authorization, jwt, now) in {Missing, Denied}
    ensures o.response.status == 422 <==>
      var a := Authenticate(db, authorization, jwt, now);
      a.Granted? && ImageRule(db.users[a.id].image, upload).Rejected?
    ensures o.fileOp.Some? <==>
      var a := Authenticate(db, authorization, jwt, now);
      a.Granted? && upload.Some? && ImageRule(db.users[a.id].image, upload).Accepted?
    ensures o.fileOp.Some? ==>
      var a := Authenticate(db, authorization, jwt, now);
      o.fileOp == Some(MoveUpload(ImagesDir + ImageRule(db.users[a.id].image, upload).fileName))
  {
    match Authenticate(db, authorization, jwt, now)
    case Missing => Outcome(db, Unauthorized, None)
    case Invalid => Outcome(db, ServerError, None)
    case Denied => Outcome(db, Unauthorized, None)
    case Granted(id, _) =>
      match ImageRule(db.users[id].image, upload)
      case Rejected(InvalidType) => Outcome(db, Response(422, Message("Invalid image type")), None)
      case Rejected(TooLarge) => Outcome(db, Response(422, Message("Max image size is 5MB")), None)
      case Accepted(fileName, moveTo) =>
        var started := if moveTo.Some? then Some(MoveUpload(moveTo.value)) else None;
        Outcome(db, ServerError, started)
  }

  /** `value || null` for an optional text field: the empty string becomes null. */
  function OrNull(value: Option<string>): (r: Option<string>)
    ensures r.Some? ==> r.value != []
    ensures value.Some? && value.value != [] ==> r == value
    ensures value.None? || value.value == [] ==> r.None?
  {
    if value.Some? && value.value != [] then value else None
  }

  /** The row after a profile update: the form's fields, role "user", the image
    * chosen by the image rule; username, password and session kept. */
  function Profile(u: User, form: ProfileForm, fileName: string): (v: User)
    ensures v.username == u.username && v.passwordHash == u.passwordHash
    ensures v.refreshToken == u.refreshToken && v.role == "user"
    ensures v.name == OrNull(form.name) && v.email == OrNull(form.email) && v.phone == OrNull(form.phone)
    ensures v.alamat == OrNull(form.alamat) && v.url == OrNull(form.url)
    ensures v.image == Some(if fileName == [] then DefaultImage else fileName)
  {
    u.(name := OrNull(form.name), email := OrNull(form.email), phone := OrNull(form.phone),
       alamat := OrNull(form.alamat), url := OrNull(form.url), role := "user",
       image := Some(if fileName == [] then DefaultImage else fileName))
  }

  /** The part of the corrected update after the guard: the image rule, then
    * the write of the caller's row. */
  function ProfileUpdate(db: Db, id: UserId, upload: Option<Upload>, form: ProfileForm): (o: Outcome)
    requires id in db.users
    ensures o.db.nextId == db.nextId && o.db.users.Keys == db.users.Keys
    ensures o.response.status in {200, 422}
    ensures o.response.status == 200 <==> ImageRule(db.users[id].image, upload).Accepted?
    ensures o.response.status != 200 ==> o.db == db
    ensures o.response.status == 200 ==>
      && o.db.users[id] == Profile(db.users[id], form, ImageRule(db.users[id].image, upload).fileName)
      && (forall other :: other in db.users && other != id ==> o.db.users[other] == db.users[other])
    ensures Valid(db) ==> Valid(o.db)
  {
    match ImageRule(db.users[id].image, upload)
    case Rejected(InvalidType) => Outcome(db, Response(422, Message("Invalid image type")), None)
    case Rejected(TooLarge) => Outcome(db, Response(422, Message("Max image size is 5MB")), None)
    case Accepted(fileName, moveTo) =>
      var started := if moveTo.Some? then Some(MoveUpload(moveTo.value)) else None;
      var row := Profile(db.users[id], form, fileName);
      ReplaceKeepsValid(db, id, row);
      Outcome(Db(db.users[id := row], db.nextId), Response(200, Message("User updated successfully")), started)
  }

  /** updateUsersWithToken with `url` bound to some value (the form's `url`
    * stands for it; where the handler meant to take it from is unknown): a
    * granted request with an acceptable image rewrites exactly the caller's
    * row and answers 200. */
  function UpdateUsersWithTokenFixed(db: Db, authorization: Option<string>, upload: Option<Upload>,
                                     form: ProfileForm, jwt: Jwt, now: int): (o: Outcome)
    ensures o.db.nextId == db.nextId && o.db.users.Keys == db.users.Keys
    ensures o.response.status in {200, 401, 422, 500}
    ensures o.response.status == 200 <==>
      var a := Authenticate(db, authorization, jwt, now);
      a.Granted? && ImageRule(db.users[a.id].image, upload).Accepted?
    ensures o.response.status != 200 ==> o.db == db
    ensures o.response.status == 200 ==>
      var id := Authenticate(db, authorization, jwt, now).id;
      && o.db.users[id] == Profile(db.users[id], form, ImageRule(db.users[id].image, upload).fileName)
      && (forall other :: other in db.users && other != id ==> o.db.users[other] == db.users[other])
    ensures Valid(db) ==> Valid(o.db)
  {
    match Authenticate(db, authorization, jwt, now)
    case Missing => Outcome(db, Unauthorized, None)
    case Invalid => Outcome(db, ServerError, None)
    case Denied => Outcome(db, Unauthorized, None)
    case Granted(id, _) => ProfileUpdate(db, id, upload, form)
  }

  /** updatepassword as written: the row found by email gets the hash of the new
    * password and keeps its session; with no row, reading `user.id` throws and
    * the answer is 500 with nothing changed. */
  function UpdatePassword(db: Db, email: string, password: string, salt: string, bcrypt: Bcrypt): (o: Outcome)
    ensures o.fileOp.None? && o.db.nextId == db.nextId && o.db.users.Keys == db.users.Keys
    ensures o.response.status in {200, 500}
    ensures o.response.status == 500 <==> EmailUnknown(db.users, email)
    ensures o.response.status == 500 ==> o.db == db && o.response == ServerError
    ensures o.response.status == 200 ==>
      var id := FindOne(db.users, EmailIs(email)).value;
      && db.users[id].email == Some(email)
      && o.db.users[id] == db.users[id].(passwordHash := bcrypt.hash(password, salt))
      && (forall other :: other in db.users && other != id ==> o.db.users[other] == db.users[other])
    ensures Valid(db) ==> Valid(o.db)
  {
    var found := FindOne(db.users, EmailIs(email));
    var hashPassword := bcrypt.hash(password, salt);
    if found.None? then Outcome(db, ServerError, None)
    else
      var id := found.value;
      var users := db.users[id := db.users[id].(passwordHash := hashPassword)];
      Outcome(Db(users, db.nextId), Response(200, Message("User updated successfully")), None)
  }

  /** updatepassword with the missing-row case answered like Login's: 404. */
  function UpdatePasswordFixed(db: Db, email: string, password: string, salt: string, bcrypt: Bcrypt): (o: Outcome)
    ensures o.response.status in {200, 404}
    ensures o.response.status == 404 <==> EmailUnknown(db.users, email)
    ensures o.response.status == 404 ==> o.db == db && o.response == Response(404, Message("User not found"))
    ensures o.response.status == 200 ==> o == UpdatePassword(db, email, password, salt, bcrypt)
  {
    if FindOne(db.users, EmailIs(email)).None? then
      Outcome(db, Response(404, Message("User not found")), None)
    else UpdatePassword(db, email, password, salt, bcrypt)
  }

  /** deleteUser: behind the same guard as the update, removes exactly the
    * caller's row and, when the row names an image of its own, starts removing
    * that file; the default image is never removed. */
  function DeleteUser(db: Db, authorization: Option<string>, jwt: Jwt, now: int): (o: Outcome)
    ensures o.response.status in {200, 401, 500}
    ensures o.response.status == 200 <==> Authenticate(db, authorization, jwt, now).Granted?
    ensures o.response.status == 401 <==> Authenticate(db, authorization, jwt, now) in {Missing, Denied}
    ensures o.response.status != 200 ==> o.db == db && o.fileOp.None?
    ensures o.response.status == 200 ==>
      var id := Authenticate(db, authorization, jwt, now).id;
      var image := db.users[id].image;
      && o.db == Db(db.users - {id}, db.nextId)
      && o.fileOp == (if HasOwnImage(image) then Some(Unlink(ImagesDir + image.value)) else None)
    ensures o.fileOp != Some(Unlink(ImagesDir + DefaultImage))
    ensures Valid(db) ==> Valid(o.db)
  {
    match Authenticate(db, authorization, jwt, now)
    case Missing => Outcome(db, Unauthorized, None)
    case Invalid => Outcome(db, ServerError, None)
    case Denied => Outcome(db, Unauthorized, None)
    case Granted(id, _) =>
      var image := db.users[id].image;
      var removal := if HasOwnImage(image) then Some(Unlink(ImagesDir + image.value)) else None;
      assert HasOwnImage(image) ==> (ImagesDir + image.value)[|ImagesDir|..] == image.value;
      Outcome(Db(db.users - {id}, db.nextId), Response(200, Message("User deleted successfully")), removal)
  }
}
