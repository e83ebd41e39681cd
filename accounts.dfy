/**
 * The User table: its rows, the store's auto-increment counter, the lookups the
 * handlers make (`findByPk` and `findOne` on one column), and the invariants
 * the handlers keep.
 */
module Accounts {
  import opened Wrappers
  import opened Libraries

  type UserId = int

  /** One row. `passwordHash` is the `password` column; `refreshToken` the
    * `refresh_token` column, null when no session is open. */
  datatype User = User(
    username: string,
    email: Option<string>,
    passwordHash: string,
    role: string,
    name: Option<string>,
    phone: Option<string>,
    alamat: Option<string>,
    url: Option<string>,
    image: Option<string>,
    refreshToken: Option<string>)

  type Table = map<UserId, User>

  /** The store: the rows by primary key and the next key it will hand out. */
  datatype Db = Db(users: Table, nextId: UserId)

  /** The store before any registration. */
  const Initial := Db(map[], 1)

  /** Usernames identify rows: Register refuses a taken one and no handler
    * renames, as long as requests are handled one at a time. */
  predicate UniqueUsernames(users: Table)
  {
    forall a, b :: a in users && b in users && users[a].username == users[b].username ==> a == b
  }

  /** Keys are positive and below the auto-increment counter; usernames are unique. */
  predicate Valid(db: Db)
  {
    && db.nextId >= 1
    && (forall id :: id in db.users ==> 1 <= id < db.nextId)
    && UniqueUsernames(db.users)
  }

  /** Every stored session token carries, in its payload, the id of the row that
    * holds it. So no two rows hold the same token. */
  ghost predicate SessionsBound(users: Table, jwt: Jwt)
  {
    forall id :: id in users && users[id].refreshToken.Some? ==>
      var payload := jwt.decode(users[id].refreshToken.value);
      payload.Some? && payload.value.userId == id
  }

  lemma SessionsDistinct(users: Table, jwt: Jwt, a: UserId, b: UserId)
    requires SessionsBound(users, jwt)
    requires a in users && b in users && users[a].refreshToken.Some?
    requires users[a].refreshToken == users[b].refreshToken
    ensures a == b
  {
  }

  /** The `where` of a `findOne` on one column. */
  datatype Where = UsernameIs(username: string) | EmailIs(email: string) | RefreshTokenIs(token: string)

  predicate Matches(u: User, w: Where)
  {
    match w
    case UsernameIs(n) => u.username == n
    case EmailIs(e) => u.email == Some(e)
    case RefreshTokenIs(t) => u.refreshToken == Some(t)
  }

  lemma {:induction false} MinExists(s: set<int>)
    requires exists x :: x in s
    ensures exists m :: m in s && forall x :: x in s ==> m <= x
    decreases |s|
  {
    var w :| w in s;
    if exists x :: x in s && x != w {
      var x :| x in s && x != w;
      var rest := s - {w};
      assert x in rest;
      MinExists(rest);
      var m :| m in rest && forall y :: y in rest ==> m <= y;
      var least := if w < m then w else m;
      forall y | y in s ensures least <= y {
        if y != w { assert y in rest; }
      }
      assert least in s;
    } else {
      forall y | y in s ensures w <= y { }
    }
  }

  function MinOf(s: set<int>): (m: int)
    requires exists x :: x in s
    ensures m in s && forall x :: x in s ==> m <= x
  {
    MinExists(s);
    var m :| m in s && forall x :: x in s ==> m <= x;
    m
  }

  /** `User.findOne({ where })`: a row matching the column value, or none. The
    * store returns the first row it meets; this model fixes that to the smallest key. */
  function FindOne(users: Table, w: Where): (found: Option<UserId>)
    ensures found.None? <==> forall id :: id in users ==> !Matches(users[id], w)
    ensures found.Some? ==> found.value in users && Matches(users[found.value], w)
    ensures found.Some? ==> forall id :: id in users && Matches(users[id], w) ==> found.value <= id
  {
    if exists id :: id in users && Matches(users[id], w) then
      var hits := set id | id in users && Matches(users[id], w);
      assert exists id :: id in hits by {
        var id :| id in users && Matches(users[id], w);
        assert id in hits;
      }
      assert forall id :: id in users && Matches(users[id], w) ==> id in hits;
      Some(MinOf(hits))
    else None
  }

  /** A row that is the only one matching is the one found. */
  lemma FindOneUnique(users: Table, w: Where, id: UserId)
    requires id in users && Matches(users[id], w)
    requires forall other :: other in users && other != id ==> !Matches(users[other], w)
    ensures FindOne(users, w) == Some(id)
  {
  }

  /** A username never matches two rows of a valid table. */
  lemma FindByUsernameUnique(db: Db, id: UserId)
    requires Valid(db) && id in db.users
    ensures FindOne(db.users, UsernameIs(db.users[id].username)) == Some(id)
  {
    FindOneUnique(db.users, UsernameIs(db.users[id].username), id);
  }

  /** The payload Login signs for row `id`. */
  function ClaimsOf(id: UserId, u: User): (c: Claims)
    ensures c.userId == id && c.username == u.username && c.role == u.role
    ensures c.name == u.name && c.email == u.email && c.phone == u.phone
    ensures c.image == u.image && c.url == u.url
  {
    Claims(id, u.name, u.username, u.email, u.phone, u.role, u.image, u.url)
  }
}
