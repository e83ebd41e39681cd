/**
 * Properties of sequences of requests: the session slot of each row as a
 * revocation list of size one. A login opens a session that the update and
 * delete guard accept and replaces any earlier one; a logout closes it; Me
 * never looks at it.
 */
module Sessions {
  import opened Wrappers
  import opened JsText
  import opened Libraries
  import opened Accounts
  import opened Images
  import opened Handlers

  /** The header a client sends with the token Login returned. */
  function BearerHeader(token: string): Option<string>
  {
    Some("Bearer " + token)
  }

  lemma BearerHeaderCarries(token: string)
    requires TokenText(token)
    ensures BearerToken(BearerHeader(token)) == Some(token)
  {
    BearerTokenOf("Bearer", token, "");
    assert "Bearer" + " " == "Bearer ";
  }

  /** A second Register with the same username is refused and changes nothing. */
  lemma RegisterTwice(db: Db, username: string, email: string, password: string, salt: string,
                      email2: string, password2: string, salt2: string, bcrypt: Bcrypt)
    requires Valid(db)
    ensures var first := Register(db, username, email, password, salt, bcrypt);
      var second := Register(first.db, username, email2, password2, salt2, bcrypt);
      second.response.status == 404 && second.db == first.db
  {
    var first := Register(db, username, email, password, salt, bcrypt);
    if first.response.status != 404 {
      assert first.db.users[db.nextId].username == username;
      assert UsernameTaken(first.db.users, username);
    }
  }

  /** A fresh account whose email no other row has can log in with its password. */
  lemma RegisterThenLogin(db: Db, username: string, email: string, password: string, salt: string,
                          bcrypt: Bcrypt, jwt: Jwt, now: int)
    requires Valid(db) && BcryptSound(bcrypt)
    requires !UsernameTaken(db.users, username) && EmailUnknown(db.users, email)
    ensures var registered := Register(db, username, email, password, salt, bcrypt);
      var login := Login(registered.db, email, password, bcrypt, jwt, now);
      && login.response.status == 200
      && login.response.body.role == "user"
      && login.db.users[db.nextId].refreshToken == Some(login.response.body.accessToken)
  {
    var registered := Register(db, username, email, password, salt, bcrypt);
    var users := registered.db.users;
    assert users[db.nextId].email == Some(email);
    forall other | other in users && other != db.nextId
      ensures !Matches(users[other], EmailIs(email))
    {
      assert other in db.users;
    }
    FindOneUnique(users, EmailIs(email), db.nextId);
    assert bcrypt.compare(password, bcrypt.hash(password, salt));
  }

  /** The token a successful Login returns passes the update/delete guard, for
    * the row that logged in, when presented at the time it was issued; and Me
    * returns that row. */
  lemma LoginThenAuthenticate(db: Db, email: string, password: string, bcrypt: Bcrypt, jwt: Jwt, now: int)
    requires JwtSound(jwt)
    requires Login(db, email, password, bcrypt, jwt, now).response.status == 200
    ensures var login := Login(db, email, password, bcrypt, jwt, now);
      var id := FindOne(db.users, EmailIs(email)).value;
      var header := BearerHeader(login.response.body.accessToken);
      && Authenticate(login.db, header, jwt, now) == Granted(id, login.response.body.accessToken)
      && Me(login.db, header, jwt, now) == Response(200, Record(id, login.db.users[id]))
  {
    var login := Login(db, email, password, bcrypt, jwt, now);
    var id := FindOne(db.users, EmailIs(email)).value;
    var claims := ClaimsOf(id, db.users[id]);
    var token := login.response.body.accessToken;
    assert token == jwt.sign(claims, now);
    assert TokenText(jwt.sign(claims, now));
    BearerHeaderCarries(token);
    assert jwt.verify(token, now) == Some(claims);
  }

  /** After a Login, the guard accepts no other token for that row: a token the
    * row held before, or any other token naming the row, is refused. */
  lemma LoginSupersedes(db: Db, email: string, password: string, bcrypt: Bcrypt, jwt: Jwt, now: int,
                        header: Option<string>, later: int)
    requires JwtSound(jwt)
    requires Login(db, email, password, bcrypt, jwt, now).response.status == 200
    requires var stale := BearerToken(header);
      stale.Some? && stale != Some(Login(db, email, password, bcrypt, jwt, now).response.body.accessToken)
    requires var stale := BearerToken(header);
      jwt.decode(stale.value).Some? && jwt.decode(stale.value).value.userId == FindOne(db.users, EmailIs(email)).value
    ensures Authenticate(Login(db, email, password, bcrypt, jwt, now).db, header, jwt, later) in {Invalid, Denied}
  {
    var login := Login(db, email, password, bcrypt, jwt, now);
    var stale := BearerToken(header).value;
    if jwt.verify(stale, later).Some? {
      assert jwt.decode(stale) == jwt.verify(stale, later);
    }
  }

  /** Logging out twice with the same header: the second call finds no session,
    * answers 204 and changes nothing. */
  lemma LogoutTwice(db: Db, header: Option<string>, jwt: Jwt)
    requires SessionsBound(db.users, jwt)
    ensures var first := Logout(db, header);
      var second := Logout(first.db, header);
      second.response.status == 204 && second.db == first.db
  {
    var first := Logout(db, header);
    if first.response.status == 200 {
      var token := BearerToken(header).value;
      var id := FindOne(db.users, RefreshTokenIs(token)).value;
      forall other | other in first.db.users
        ensures first.db.users[other].refreshToken != Some(token)
      {
        if other != id && db.users[other].refreshToken == Some(token) {
          SessionsDistinct(db.users, jwt, id, other);
        }
      }
    }
  }

  /** A logged-out token no longer passes the update/delete guard, so update and
    * delete with it change nothing. */
  lemma LogoutRevokes(db: Db, header: Option<string>, jwt: Jwt, now: int)
    requires SessionsBound(db.users, jwt) && JwtSound(jwt)
    requires Logout(db, header).response.status == 200
    ensures var after := Logout(db, header).db;
      && Authenticate(after, header, jwt, now) in {Invalid, Denied}
      && DeleteUser(after, header, jwt, now).db == after
      && DeleteUser(after, header, jwt, now).response.status in {401, 500}
  {
    var after := Logout(db, header).db;
    var token := BearerToken(header).value;
    var id := FindOne(db.users, RefreshTokenIs(token)).value;
    var verified := jwt.verify(token, now);
    if verified.Some? {
      assert jwt.decode(token) == verified;
      assert db.users[id].refreshToken == Some(token);
      assert verified.value.userId == id;
    }
  }

  /** A deleted account's token no longer passes the guard. */
  lemma DeleteRevokes(db: Db, header: Option<string>, jwt: Jwt, now: int, later: int)
    requires SessionsBound(db.users, jwt) && JwtSound(jwt)
    requires DeleteUser(db, header, jwt, now).response.status == 200
    ensures Authenticate(DeleteUser(db, header, jwt, now).db, header, jwt, later) in {Invalid, Denied}
  {
    var granted := Authenticate(db, header, jwt, now);
    var token := BearerToken(header).value;
    var verified := jwt.verify(token, later);
    if verified.Some? {
      assert jwt.decode(token) == verified;
      assert verified.value.userId == granted.id;
    }
  }

  /** Two stores that differ only in their session slots answer Me alike. */
  lemma MeIgnoresSessions(a: Db, b: Db, header: Option<string>, jwt: Jwt, now: int)
    requires a.users.Keys == b.users.Keys
    requires forall id :: id in a.users ==> WithoutSession(a.users[id]) == WithoutSession(b.users[id])
    ensures Me(a, header, jwt, now).status == Me(b, header, jwt, now).status
  {
    match Present(header, jwt, now)
    case NoToken =>
    case BadToken =>
    case Claimed(_, claims) =>
      assert claims.userId in a.users <==> claims.userId in b.users;
  }

  /** So Me still returns the row after its owner logged out. */
  lemma MeAfterLogout(db: Db, logoutHeader: Option<string>, header: Option<string>, jwt: Jwt, now: int)
    ensures Me(Logout(db, logoutHeader).db, header, jwt, now).status == Me(db, header, jwt, now).status
  {
    MeIgnoresSessions(Logout(db, logoutHeader).db, db, header, jwt, now);
  }

  /** Changing the password leaves every session open: the guard answers as before. */
  lemma UpdatePasswordKeepsSessions(db: Db, email: string, password: string, salt: string, bcrypt: Bcrypt,
                                    header: Option<string>, jwt: Jwt, now: int)
    ensures var after := UpdatePassword(db, email, password, salt, bcrypt).db;
      Authenticate(after, header, jwt, now) == Authenticate(db, header, jwt, now)
  {
    var o := UpdatePassword(db, email, password, salt, bcrypt);
    if o.response.status == 200 {
      var id := FindOne(db.users, EmailIs(email)).value;
      assert forall other :: other in db.users ==> o.db.users[other].refreshToken == db.users[other].refreshToken;
    }
  }

  /** A change that opens no new session keeps every stored token bound to its row. */
  lemma {:induction false} SessionsBoundWithoutNewSessions(before: Table, after: Table, jwt: Jwt)
    requires SessionsBound(before, jwt)
    requires forall id :: id in after ==>
      after[id].refreshToken.None? || (id in before && after[id].refreshToken == before[id].refreshToken)
    ensures SessionsBound(after, jwt)
  {
    forall id | id in after && after[id].refreshToken.Some?
      ensures var payload := jwt.decode(after[id].refreshToken.value);
        payload.Some? && payload.value.userId == id
    {
      assert id in before && before[id].refreshToken.Some?;
    }
  }

  /** Every handler keeps SessionsBound; Login does because the token it stores
    * carries the row's id. */
  lemma LoginKeepsSessionsBound(db: Db, email: string, password: string, bcrypt: Bcrypt, jwt: Jwt, now: int)
    requires SessionsBound(db.users, jwt) && JwtSound(jwt)
    ensures SessionsBound(Login(db, email, password, bcrypt, jwt, now).db.users, jwt)
  {
    var o := Login(db, email, password, bcrypt, jwt, now);
    if o.response.status == 200 {
      var id := FindOne(db.users, EmailIs(email)).value;
      var claims := ClaimsOf(id, db.users[id]);
      assert jwt.decode(jwt.sign(claims, now)) == Some(claims);
      forall other | other in o.db.users && o.db.users[other].refreshToken.Some?
        ensures var payload := jwt.decode(o.db.users[other].refreshToken.value);
          payload.Some? && payload.value.userId == other
      {
        if other != id { assert o.db.users[other] == db.users[other]; }
      }
    }
  }

  lemma RegisterKeepsSessionsBound(db: Db, username: string, email: string, password: string, salt: string,
                                   bcrypt: Bcrypt, jwt: Jwt)
    requires Valid(db) && SessionsBound(db.users, jwt)
    ensures SessionsBound(Register(db, username, email, password, salt, bcrypt).db.users, jwt)
  {
    SessionsBoundWithoutNewSessions(db.users, Register(db, username, email, password, salt, bcrypt).db.users, jwt);
  }

  lemma LogoutKeepsSessionsBound(db: Db, header: Option<string>, jwt: Jwt)
    requires SessionsBound(db.users, jwt)
    ensures SessionsBound(Logout(db, header).db.users, jwt)
  {
    SessionsBoundWithoutNewSessions(db.users, Logout(db, header).db.users, jwt);
  }

  lemma UpdatePasswordKeepsSessionsBound(db: Db, email: string, password: string, salt: string,
                                         bcrypt: Bcrypt, jwt: Jwt)
    requires SessionsBound(db.users, jwt)
    ensures SessionsBound(UpdatePassword(db, email, password, salt, bcrypt).db.users, jwt)
  {
    SessionsBoundWithoutNewSessions(db.users, UpdatePassword(db, email, password, salt, bcrypt).db.users, jwt);
  }

  lemma DeleteKeepsSessionsBound(db: Db, header: Option<string>, jwt: Jwt, now: int)
    requires SessionsBound(db.users, jwt)
    ensures SessionsBound(DeleteUser(db, header, jwt, now).db.users, jwt)
  {
    SessionsBoundWithoutNewSessions(db.users, DeleteUser(db, header, jwt, now).db.users, jwt);
  }

  lemma UpdateFixedKeepsSessionsBound(db: Db, header: Option<string>, upload: Option<Upload>,
                                      form: ProfileForm, jwt: Jwt, now: int)
    requires SessionsBound(db.users, jwt)
    ensures SessionsBound(UpdateUsersWithTokenFixed(db, header, upload, form, jwt, now).db.users, jwt)
  {
    SessionsBoundWithoutNewSessions(db.users, UpdateUsersWithTokenFixed(db, header, upload, form, jwt, now).db.users, jwt);
  }

  /** The unbound `url`: every request the corrected handler would carry out
    * (guard passed, image accepted) ends in 500 as written, with the row unchanged. */
  lemma UpdateAsWrittenNeverApplies(db: Db, header: Option<string>, upload: Option<Upload>,
                                    form: ProfileForm, jwt: Jwt, now: int)
    requires UpdateUsersWithTokenFixed(db, header, upload, form, jwt, now).response.status == 200
    ensures UpdateUsersWithToken(db, header, upload, form, jwt, now).response == ServerError
    ensures UpdateUsersWithToken(db, header, upload, form, jwt, now).db == db
  {
  }

  /** Such requests exist: right after a Login, an update with the returned
    * token and no upload fails as written and succeeds once corrected. */
  lemma UpdateAfterLogin(db: Db, email: string, password: string, bcrypt: Bcrypt, jwt: Jwt, now: int,
                         form: ProfileForm)
    requires JwtSound(jwt)
    requires Login(db, email, password, bcrypt, jwt, now).response.status == 200
    ensures var login := Login(db, email, password, bcrypt, jwt, now);
      var header := BearerHeader(login.response.body.accessToken);
      && UpdateUsersWithToken(login.db, header, None, form, jwt, now).response.status == 500
      && UpdateUsersWithTokenFixed(login.db, header, None, form, jwt, now).response.status == 200
  {
    LoginThenAuthenticate(db, email, password, bcrypt, jwt, now);
  }

  /** The missing null check: an unknown email gets 500 as written and 404 once
    * corrected, and neither changes the store. */
  lemma UpdatePasswordUnknownEmail(db: Db, email: string, password: string, salt: string, bcrypt: Bcrypt)
    requires EmailUnknown(db.users, email)
    ensures UpdatePassword(db, email, password, salt, bcrypt).response == ServerError
    ensures UpdatePasswordFixed(db, email, password, salt, bcrypt).response.status == 404
    ensures UpdatePassword(db, email, password, salt, bcrypt).db == db
    ensures UpdatePasswordFixed(db, email, password, salt, bcrypt).db == db
  {
  }
}
