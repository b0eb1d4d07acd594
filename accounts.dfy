/**
 * The account endpoints (routes/auth.py): sign-up, login, the `me` endpoint and the
 * user listing, over the `users` collection held in insertion order.
 *
 * Password hashing and token signing are not modelled: the bcrypt hash of a new
 * password is a parameter of `Signup`, `bcrypt.checkpw` is a parameter of `Login`, and
 * JWT encoding and decoding are parameters `encode` and `decode`.
 */
module Accounts {
  import opened Common
  import opened Strings
  import opened Web

  /** A stored user document; `password` is the bcrypt hash. */
  datatype User = User(id: Id, name: string, email: string, password: string, role: Field)

  /** A user document as the endpoints return it: without the password field. */
  datatype UserView = UserView(id: Id, name: string, email: string, role: Field)

  /** The claims a token signs. */
  datatype Claims = Claims(userId: string, email: string, role: Field)

  datatype SignupReply = SignupReply(token: string, userId: Id)

  datatype LoginReply = LoginReply(token: string, userId: Id, name: string, role: Field)

  function ViewOf(u: User): UserView {
    UserView(u.id, u.name, u.email, u.role)
  }

  /** `user.get('role', 'patient')`. */
  function RoleOf(u: User): Field {
    u.role.GetOr("patient")
  }

  /** `(data.get("email") or "").strip().lower()`. */
  function NormaliseEmail(f: Field): string {
    Lower(Strip(f.OrEmpty()))
  }

  predicate IsGmail(email: string) {
    EndsWith(email, "@gmail.com")
  }

  /** What a user is looked up by: `{"email": email}` or `{"_id": ObjectId(id)}`. */
  datatype Key = ByEmail(email: string) | ById(id: Id)

  predicate Matches(u: User, key: Key) {
    match key
    case ByEmail(e) => u.email == e
    case ById(id) => u.id == id
  }

  /** The index of the first user at or after `i` that the key matches, or `|users|`
      (`users.find_one(...)`). */
  function FindUser(users: seq<User>, key: Key, i: nat): (j: nat)
    requires i <= |users|
    ensures i <= j <= |users|
    ensures j < |users| ==> Matches(users[j], key)
    decreases |users| - i
  {
    if i < |users| && !Matches(users[i], key) then FindUser(users, key, i + 1) else i
  }

  lemma {:induction false} FindUserIsFirst(users: seq<User>, key: Key, i: nat)
    requires i <= |users|
    ensures forall k | i <= k < FindUser(users, key, i) :: !Matches(users[k], key)
    decreases |users| - i
  {
    if i < |users| && !Matches(users[i], key) {
      FindUserIsFirst(users, key, i + 1);
    }
  }

  predicate EmailTaken(users: seq<User>, email: string) {
    FindUser(users, ByEmail(email), 0) < |users|
  }

  predicate IdTaken(users: seq<User>, id: Id) {
    FindUser(users, ById(id), 0) < |users|
  }

  /** No two users share an email, and none share an id. */
  predicate UniqueAccounts(users: seq<User>) {
    forall i, j | 0 <= i < j < |users| :: users[i].email != users[j].email && users[i].id != users[j].id
  }

  // ---------------------------------------------------------------- the handlers as functions of the store

  /** `POST /signup`: the reply and the new store. */
  function SignupResult(users: seq<User>, email: Field, name: Field, password: Field, role: Field,
                        newId: Id, hashed: string, encode: Claims -> string): (Result<SignupReply, Status>, seq<User>)
  {
    var e := NormaliseEmail(email);
    var n := Strip(name.OrEmpty());
    if n == "" || e == "" || !password.Truthy() then (Err(BadRequest), users)
    else if !IsGmail(e) then (Err(BadRequest), users)
    else if EmailTaken(users, e) then (Err(BadRequest), users)
    else
      var r := role.GetOr("patient");
      (Ok(SignupReply(encode(Claims(newId, e, r)), newId)), users + [User(newId, n, e, hashed, r)])
  }

  /** `POST /login`. */
  function LoginResult(users: seq<User>, email: Field, password: Field,
                       checkpw: (string, string) -> bool, encode: Claims -> string): Result<LoginReply, Status>
  {
    var e := NormaliseEmail(email);
    if e == "" || !password.Truthy() then Err(BadRequest)
    else if !IsGmail(e) then Err(BadRequest)
    else
      var i := FindUser(users, ByEmail(e), 0);
      if i == |users| || !checkpw(password.s, users[i].password) then Err(Unauthorized)
      else
        var u := users[i];
        Ok(LoginReply(encode(Claims(u.id, u.email, RoleOf(u))), u.id, u.name, RoleOf(u)))
  }

  /** The token of the `Authorization` header as `me` reads it: present and non-empty,
      exactly two whitespace-separated words, the first `bearer` in any letter case. */
  function MeToken(header: Option<string>): Result<string, Status> {
    if header.None? || header.value == "" then Err(Unauthorized)
    else
      var parts := Words(header.value);
      if |parts| != 2 || Lower(parts[0]) != "bearer" then Err(Unauthorized)
      else Ok(parts[1])
  }

  /** `GET /me`: an id that `ObjectId` rejects raises (500); an unknown user is 404. */
  function MeResult(users: seq<User>, header: Option<string>, decode: string -> Option<Claims>): Result<UserView, Status> {
    match MeToken(header)
    case Err(e) => Err(e)
    case Ok(token) =>
      match decode(token)
      case None => Err(Unauthorized)
      case Some(claims) =>
        match ParseObjectId(claims.userId)
        case None => Err(ServerError)
        case Some(id) =>
          var i := FindUser(users, ById(id), 0);
          if i == |users| then Err(NotFound) else Ok(ViewOf(users[i]))
  }

  /** The `role` query filter: only a non-empty value filters. */
  predicate Listed(u: User, role: Option<string>) {
    role.None? || role.value == "" || u.role == Given(role.value)
  }

  /** `GET /users`: the users the filter lets through, in store order, without passwords. */
  function ListedUsers(users: seq<User>, role: Option<string>): seq<UserView> {
    if users == [] then []
    else
      var u := users[|users| - 1];
      ListedUsers(users[..|users| - 1], role) + (if Listed(u, role) then [ViewOf(u)] else [])
  }

  // ---------------------------------------------------------------- the store

  class UserStore {
    var users: seq<User>

    predicate Valid()
      reads this
    {
      UniqueAccounts(users)
    }

    constructor()
      ensures users == [] && Valid()
    {
      users := [];
    }

    /** `signup()`; `newId` is the id the database assigns, `hashed` the bcrypt hash of the password. */
    method Signup(email: Field, name: Field, password: Field, role: Field, newId: Id, hashed: string, encode: Claims -> string)
      returns (r: Result<SignupReply, Status>)
      requires Valid()
      requires !IdTaken(users, newId)
      modifies this
      ensures (r, users) == SignupResult(old(users), email, name, password, role, newId, hashed, encode)
      ensures Valid()
    {
      var e := Lower(Strip(email.OrEmpty()));
      var n := Strip(name.OrEmpty());
      if n == "" || e == "" || !password.Truthy() {
        return Err(BadRequest);
      }
      if !EndsWith(e, "@gmail.com") {
        return Err(BadRequest);
      }
      if FindUser(users, ByEmail(e), 0) < |users| {
        return Err(BadRequest);
      }
      var storedRole := role.GetOr("patient");
      SignupKeepsAccountsUnique(users, email, name, password, role, newId, hashed, encode);
      users := users + [User(newId, n, e, hashed, storedRole)];
      r := Ok(SignupReply(encode(Claims(newId, e, storedRole)), newId));
    }

    /** `login()`. */
    method Login(email: Field, password: Field, checkpw: (string, string) -> bool, encode: Claims -> string)
      returns (r: Result<LoginReply, Status>)
      ensures r == LoginResult(users, email, password, checkpw, encode)
    {
      var e := Lower(Strip(email.OrEmpty()));
      if e == "" || !password.Truthy() {
        return Err(BadRequest);
      }
      if !EndsWith(e, "@gmail.com") {
        return Err(BadRequest);
      }
      var i := FindUser(users, ByEmail(e), 0);
      if i == |users| || !checkpw(password.s, users[i].password) {
        return Err(Unauthorized);
      }
      var user := users[i];
      var role := user.role.GetOr("patient");
      r := Ok(LoginReply(encode(Claims(user.id, user.email, role)), user.id, user.name, role));
    }

    /** `me()`. */
    method Me(header: Option<string>, decode: string -> Option<Claims>) returns (r: Result<UserView, Status>)
      ensures r == MeResult(users, header, decode)
    {
      var token := MeToken(header);
      if token.Err? {
        return Err(token.error);
      }
      var payload := decode(token.value);
      if payload.None? {
        return Err(Unauthorized);
      }
      var id := ParseObjectId(payload.value.userId);
      if id.None? {
        return Err(ServerError);
      }
      var i := FindUser(users, ById(id.value), 0);
      if i == |users| {
        return Err(NotFound);
      }
      r := Ok(ViewOf(users[i]));
    }
  }

  // ---------------------------------------------------------------- properties

  /** Sign-up keeps emails and ids unique. */
  lemma SignupKeepsAccountsUnique(users: seq<User>, email: Field, name: Field, password: Field, role: Field,
                                  newId: Id, hashed: string, encode: Claims -> string)
    requires UniqueAccounts(users) && !IdTaken(users, newId)
    ensures UniqueAccounts(SignupResult(users, email, name, password, role, newId, hashed, encode).1)
  {
    var e := NormaliseEmail(email);
    FindUserIsFirst(users, ByEmail(e), 0);
    FindUserIsFirst(users, ById(newId), 0);
  }

  /** Sign-up fails with 400 exactly when a field is missing, the email is not a Gmail
      address, or it is taken; a failure leaves the store alone, a success adds one user
      with the normalised email and the given role (`patient` when none is given). */
  lemma SignupOutcomes(users: seq<User>, email: Field, name: Field, password: Field, role: Field,
                       newId: Id, hashed: string, encode: Claims -> string)
    ensures var (r, users') := SignupResult(users, email, name, password, role, newId, hashed, encode);
            var e := NormaliseEmail(email);
            && (r.Err? <==> Strip(name.OrEmpty()) == "" || e == "" || !password.Truthy() || !IsGmail(e) || EmailTaken(users, e))
            && (r.Err? ==> r.error == BadRequest && users' == users)
            && (r.Ok? ==>
                  && |users'| == |users| + 1 && users'[..|users|] == users
                  && var stored := if role.Missing? then Given("patient") else role;
                     && users'[|users|] == User(newId, Strip(name.OrEmpty()), e, hashed, stored)
                     && r.value == SignupReply(encode(Claims(newId, e, stored)), newId))
  {
    var (r, users') := SignupResult(users, email, name, password, role, newId, hashed, encode);
    if r.Ok? {
      assert users'[..|users|] == users;
    }
  }

  /** Removing surrounding whitespace and lower-casing leaves a normalised email as it is. */
  lemma NormaliseEmailIdempotent(f: Field)
    ensures NormaliseEmail(Given(NormaliseEmail(f))) == NormaliseEmail(f)
  {
    var t := Strip(f.OrEmpty());
    var l := Lower(t);
    StripIsStripped(f.OrEmpty());
    assert IsStripped(l) by {
      if l != [] {
        assert l[0] == LowerChar(t[0]);
        assert l[|l| - 1] == LowerChar(t[|t| - 1]);
      }
    }
    StripOfStripped(l);
    assert HasNoUpper(l) by {
      forall i | 0 <= i < |l| ensures !IsUpper(l[i]) {
        assert l[i] == LowerChar(t[i]);
      }
    }
    LowerOfLowerCase(l);
  }

  /** Login fails with 400 for a missing field or a non-Gmail address; an unknown email
      and a wrong password fail alike with 401; a success returns the stored role, or
      `patient` when the user has none. */
  lemma LoginOutcomes(users: seq<User>, email: Field, password: Field,
                      checkpw: (string, string) -> bool, encode: Claims -> string)
    ensures var r := LoginResult(users, email, password, checkpw, encode);
            var e := NormaliseEmail(email);
            && (r.Err? && r.error == BadRequest <==> e == "" || !password.Truthy() || !IsGmail(e))
            && (r.Err? && r.error == Unauthorized <==>
                  e != "" && password.Truthy() && IsGmail(e)
                  && (!EmailTaken(users, e) || !checkpw(password.s, users[FindUser(users, ByEmail(e), 0)].password)))
            && (r.Ok? ==> exists k | 0 <= k < |users| :: users[k].email == e && r.value.role == RoleOf(users[k])
                                                     && r.value.userId == users[k].id)
  {
    var r := LoginResult(users, email, password, checkpw, encode);
    if r.Ok? {
      var k := FindUser(users, ByEmail(NormaliseEmail(email)), 0);
      assert users[k].email == NormaliseEmail(email);
    }
  }

  /** `me` answers 401 exactly when the header is not a bearer token or the token does not
      decode, 500 exactly when the decoded id is not an `ObjectId`, 404 exactly when no
      stored user has that id, and otherwise the first user with that id, without the
      password. */
  lemma {:induction false} MeOutcomes(users: seq<User>, header: Option<string>, decode: string -> Option<Claims>)
    ensures var r := MeResult(users, header, decode);
            var t := MeToken(header);
            var claims := if t.Ok? then decode(t.value) else None;
            var id := if claims.Some? then ParseObjectId(claims.value.userId) else None;
            && (r == Err(Unauthorized) <==> claims.None?)
            && (r == Err(ServerError) <==> claims.Some? && id.None?)
            && (r == Err(NotFound) <==> id.Some? && forall k | 0 <= k < |users| :: users[k].id != id.value)
            && (r.Err? ==> r.error in {Unauthorized, ServerError, NotFound})
            && (r.Ok? ==> id.Some? && exists k | 0 <= k < |users| ::
                            && users[k].id == id.value
                            && (forall j | 0 <= j < k :: users[j].id != id.value)
                            && r.value == UserView(users[k].id, users[k].name, users[k].email, users[k].role))
  {
    var t := MeToken(header);
    if t.Ok? && decode(t.value).Some? && ParseObjectId(decode(t.value).value.userId).Some? {
      var id := ParseObjectId(decode(t.value).value.userId).value;
      var i := FindUser(users, ById(id), 0);
      FindUserIsFirst(users, ById(id), 0);
      if i < |users| {
        assert users[i].id == id;
      }
    }
  }

  /** A user who signed up can log in with the same email, in any letter case and with any
      surrounding whitespace, and a password the stored hash accepts; the reply carries the
      new id and the role given at sign-up. */
  lemma SignupThenLogin(users: seq<User>, email: Field, name: Field, password: Field, role: Field,
                        newId: Id, hashed: string, encode: Claims -> string,
                        loginEmail: Field, checkpw: (string, string) -> bool)
    requires SignupResult(users, email, name, password, role, newId, hashed, encode).0.Ok?
    requires NormaliseEmail(loginEmail) == NormaliseEmail(email)
    requires checkpw(password.s, hashed)
    ensures var users' := SignupResult(users, email, name, password, role, newId, hashed, encode).1;
            var r := LoginResult(users', loginEmail, password, checkpw, encode);
            r.Ok? && r.value.userId == newId && r.value.role == role.GetOr("patient")
  {
    var e := NormaliseEmail(email);
    var users' := SignupResult(users, email, name, password, role, newId, hashed, encode).1;
    FindUserIsFirst(users, ByEmail(e), 0);
    assert users'[..|users|] == users;
    FindUserFound(users', ByEmail(e), |users|);
  }

  /** The search finds the first user the key matches. */
  lemma {:induction false} FindUserFound(users: seq<User>, key: Key, k: nat)
    requires k < |users| && Matches(users[k], key)
    requires forall i | 0 <= i < k :: !Matches(users[i], key)
    ensures FindUser(users, key, 0) == k
  {
    FindUserFrom(users, key, 0, k);
  }

  lemma {:induction false} FindUserFrom(users: seq<User>, key: Key, i: nat, k: nat)
    requires i <= k < |users| && Matches(users[k], key)
    requires forall j | i <= j < k :: !Matches(users[j], key)
    ensures FindUser(users, key, i) == k
    decreases k - i
  {
    if i < k {
      FindUserFrom(users, key, i + 1, k);
    }
  }

  /** The listing holds exactly the users the filter lets through, each without its password. */
  lemma {:induction false} ListedUsersMembers(users: seq<User>, role: Option<string>, v: UserView)
    ensures v in ListedUsers(users, role) <==> exists k | 0 <= k < |users| :: Listed(users[k], role) && v == ViewOf(users[k])
  {
    if users != [] {
      var init := users[..|users| - 1];
      ListedUsersMembers(init, role, v);
      if exists k | 0 <= k < |users| :: Listed(users[k], role) && v == ViewOf(users[k]) {
        var k :| 0 <= k < |users| && Listed(users[k], role) && v == ViewOf(users[k]);
        if k < |users| - 1 {
          assert init[k] == users[k];
        }
      }
      if exists k | 0 <= k < |init| :: Listed(init[k], role) && v == ViewOf(init[k]) {
        var k :| 0 <= k < |init| && Listed(init[k], role) && v == ViewOf(init[k]);
        assert users[k] == init[k];
      }
    }
  }

  /** With a non-empty `role` filter every listed user has exactly that role. */
  lemma {:induction false} ListedUsersHaveRole(users: seq<User>, role: string)
    requires role != ""
    ensures forall v | v in ListedUsers(users, Some(role)) :: v.role == Given(role)
  {
    forall v | v in ListedUsers(users, Some(role)) ensures v.role == Given(role) {
      ListedUsersMembers(users, Some(role), v);
    }
  }
}
