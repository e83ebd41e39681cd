/**
 * The controller over the shared User table: one object holding the rows and
 * the auto-increment counter, one method per handler. Each method performs the
 * handler's steps in order (lookup, check, library call, write) and is proved
 * to leave the table and answer exactly as the corresponding function of
 * module Handlers says. File moves and removals are only recorded, in the
 * order they are started.
 */
module Controller {
  import opened Wrappers
  import opened JsText
  import opened Libraries
  import opened Accounts
  import opened Images
  import opened Handlers

  function Started(op: Option<FileOp>): seq<FileOp>
  {
    if op.Some? then [op.value] else []
  }

  /** The move an image decision starts, if any. */
  function MoveStarted(decision: ImageDecision): Option<FileOp>
  {
    if decision.Accepted? && decision.moveTo.Some? then Some(MoveUpload(decision.moveTo.value)) else None
  }

  class Users {
    var users: map<UserId, User>
    var nextId: UserId
    /** The file operations started so far, none of them awaited. */
    ghost var fileOps: seq<FileOp>

    ghost function Store(): Db
      reads this
    {
      Db(users, nextId)
    }

    ghost predicate Valid()
      reads this
    {
      Accounts.Valid(Store())
    }

    constructor ()
      ensures Valid() && Store() == Initial && fileOps == []
    {
      users := map[];
      nextId := 1;
      fileOps := [];
    }

    method Register(username: string, email: string, password: string, salt: string, bcrypt: Bcrypt)
      returns (response: Response)
      requires Valid()
      modifies this
      ensures Valid()
      ensures var o := Handlers.Register(old(Store()), username, email, password, salt, bcrypt);
        Store() == o.db && response == o.response && fileOps == old(fileOps)
    {
      var existingUser := FindOne(users, UsernameIs(username));
      if existingUser.Some? {
        return Response(404, Message("Username sudah ada! Ganti username!"));
      }
      var hashPassword := bcrypt.hash(password, salt);
      users := users[nextId := NewAccount(username, email, hashPassword)];
      nextId := nextId + 1;
      response := Response(200, Message("Register Berhasil"));
    }

    method Login(email: string, password: string, bcrypt: Bcrypt, jwt: Jwt, now: int)
      returns (response: Response)
      requires Valid()
      modifies this
      ensures Valid()
      ensures var o := Handlers.Login(old(Store()), email, password, bcrypt, jwt, now);
        Store() == o.db && response == o.response && fileOps == old(fileOps)
    {
      var found := FindOne(users, EmailIs(email));
      if found.None? {
        return Response(404, Message("User not found"));
      }
      var id := found.value;
      var user := users[id];
      var matched := bcrypt.compare(password, user.passwordHash);
      if !matched {
        return Response(400, Message("Wrong Password"));
      }
      var accessToken := jwt.sign(ClaimsOf(id, user), now);
      users := users[id := user.(refreshToken := Some(accessToken))];
      response := Response(200, Session(accessToken, user.role));
    }

    /** Me only reads the table. */
    method Me(authorization: Option<string>, jwt: Jwt, now: int) returns (response: Response)
      ensures response == Handlers.Me(Store(), authorization, jwt, now)
    {
      var token := BearerToken(authorization);
      if token.None? {
        return Unauthorized;
      }
      var decoded := jwt.verify(token.value, now);
      if decoded.None? {
        return ServerError;
      }
      var id := decoded.value.userId;
      if id !in users {
        return Unauthorized;
      }
      response := Response(200, Record(id, users[id]));
    }

    method Logout(authorization: Option<string>) returns (response: Response)
      requires Valid()
      modifies this
      ensures Valid()
      ensures var o := Handlers.Logout(old(Store()), authorization);
        Store() == o.db && response == o.response && fileOps == old(fileOps)
    {
      var token := BearerToken(authorization);
      if token.None? {
        return Response(204, Message("No token provided"));
      }
      var found := FindOne(users, RefreshTokenIs(token.value));
      if found.None? {
        return Response(204, Message("User not found or already logged out"));
      }
      var id := found.value;
      users := users[id := users[id].(refreshToken := None)];
      response := Response(200, Message("Logout successful"));
    }

    /** The guard shared by update and delete, as the steps the handlers take. */
    method Guard(authorization: Option<string>, jwt: Jwt, now: int) returns (auth: Auth)
      ensures auth == Authenticate(Store(), authorization, jwt, now)
    {
      var token := BearerToken(authorization);
      if token.None? {
        return Missing;
      }
      var decoded := jwt.verify(token.value, now);
      if decoded.None? {
        return Invalid;
      }
      var id := decoded.value.userId;
      if id !in users || users[id].refreshToken != token {
        return Denied;
      }
      auth := Granted(id, token.value);
    }

    /** The image step of the profile update: the image rule decides, and an
      * accepted upload has its move to the images directory started. */
    method TakeUpload(image: Option<string>, upload: Option<Upload>) returns (decision: ImageDecision)
      modifies this
      ensures decision == ImageRule(image, upload)
      ensures unchanged(this`users, this`nextId)
      ensures fileOps == old(fileOps) + Started(MoveStarted(decision))
    {
      decision := ImageRule(image, upload);
      var move := MoveStarted(decision);
      if move.Some? {
        fileOps := fileOps + [move.value];
      }
    }

    /** As written: the table is never written, since building the update
      * object throws on the unbound `url` once the move has been started. */
    method UpdateUsersWithToken(authorization: Option<string>, upload: Option<Upload>, form: ProfileForm,
                                jwt: Jwt, now: int) returns (response: Response)
      requires Valid()
      modifies this
      ensures Valid()
      ensures var o := Handlers.UpdateUsersWithToken(old(Store()), authorization, upload, form, jwt, now);
        Store() == o.db && response == o.response && fileOps == old(fileOps) + Started(o.fileOp)
    {
      var auth := Guard(authorization, jwt, now);
      if !auth.Granted? {
        return if auth == Invalid then ServerError else Unauthorized;
      }
      var decision := TakeUpload(users[auth.id].image, upload);
      response := match decision
        case Rejected(InvalidType) => Response(422, Message("Invalid image type"))
        case Rejected(TooLarge) => Response(422, Message("Max image size is 5MB"))
        case Accepted(_, _) => ServerError;
    }

    /** The corrected update after the guard: the image step, then the write of
      * the caller's row. */
    method ApplyProfile(id: UserId, upload: Option<Upload>, form: ProfileForm) returns (response: Response)
      requires Valid() && id in users
      modifies this
      ensures Valid()
      ensures var o := ProfileUpdate(old(Store()), id, upload, form);
        Store() == o.db && response == o.response && fileOps == old(fileOps) + Started(o.fileOp)
    {
      ghost var before := Store();
      var decision := TakeUpload(users[id].image, upload);
      if decision.Rejected? {
        return Response(422, Message(if decision.error == InvalidType then "Invalid image type"
                                     else "Max image size is 5MB"));
      }
      var row := Profile(users[id], form, decision.fileName);
      ReplaceKeepsValid(before, id, row);
      users := users[id := row];
      response := Response(200, Message("User updated successfully"));
      assert Store() == before.(users := before.users[id := row]);
    }

    /** With `url` bound to the request body's field: the caller's row is rewritten. */
    method UpdateUsersWithTokenFixed(authorization: Option<string>, upload: Option<Upload>, form: ProfileForm,
                                     jwt: Jwt, now: int) returns (response: Response)
      requires Valid()
      modifies this
      ensures Valid()
      ensures var o := Handlers.UpdateUsersWithTokenFixed(old(Store()), authorization, upload, form, jwt, now);
        Store() == o.db && response == o.response && fileOps == old(fileOps) + Started(o.fileOp)
    {
      var auth := Guard(authorization, jwt, now);
      if !auth.Granted? {
        return if auth == Invalid then ServerError else Unauthorized;
      }
      response := ApplyProfile(auth.id, upload, form);
    }

    /** As written: with no row for the email, reading `user.id` throws. */
    method UpdatePassword(email: string, password: string, salt: string, bcrypt: Bcrypt)
      returns (response: Response)
      requires Valid()
      modifies this
      ensures Valid()
      ensures var o := Handlers.UpdatePassword(old(Store()), email, password, salt, bcrypt);
        Store() == o.db && response == o.response && fileOps == old(fileOps)
    {
      var user := FindOne(users, EmailIs(email));
      var hashPassword := bcrypt.hash(password, salt);
      if user.None? {
        return ServerError;
      }
      var id := user.value;
      users := users[id := users[id].(passwordHash := hashPassword)];
      response := Response(200, Message("User updated successfully"));
    }

    method UpdatePasswordFixed(email: string, password: string, salt: string, bcrypt: Bcrypt)
      returns (response: Response)
      requires Valid()
      modifies this
      ensures Valid()
      ensures var o := Handlers.UpdatePasswordFixed(old(Store()), email, password, salt, bcrypt);
        Store() == o.db && response == o.response && fileOps == old(fileOps)
    {
      var user := FindOne(users, EmailIs(email));
      if user.None? {
        return Response(404, Message("User not found"));
      }
      var id := user.value;
      var hashPassword := bcrypt.hash(password, salt);
      users := users[id := users[id].(passwordHash := hashPassword)];
      response := Response(200, Message("User updated successfully"));
    }

    method DeleteUser(authorization: Option<string>, jwt: Jwt, now: int) returns (response: Response)
      requires Valid()
      modifies this
      ensures Valid()
      ensures var o := Handlers.DeleteUser(old(Store()), authorization, jwt, now);
        Store() == o.db && response == o.response && fileOps == old(fileOps) + Started(o.fileOp)
    {
      var auth := Guard(authorization, jwt, now);
      if auth == Missing || auth == Denied {
        return Unauthorized;
      }
      if auth == Invalid {
        return ServerError;
      }
      var id := auth.id;
      var image := users[id].image;
      if HasOwnImage(image) {
        fileOps := fileOps + [Unlink(ImagesDir + image.value)];
      }
      users := users - {id};
      response := Response(200, Message("User deleted successfully"));
    }
  }
}
