/**
 * The request gate of utils/auth.py: `require_auth` reads the bearer token of the
 * `Authorization` header (section 2.1 of RFC 6750), decodes it, resolves the user from
 * the store and records the caller's identity in Flask's request context `g`;
 * `require_role` then compares the recorded role with the one an endpoint needs.
 */
module AuthGate {
  import opened Common
  import opened Strings
  import opened Web
  import opened Accounts

  /** The header check of `require_auth`, in its order: `parts[0]` is read before the
      number of parts is checked, so a header of whitespace only raises (500). */
  function GateToken(header: Option<string>): Result<string, Status> {
    if header.None? || header.value == "" then Err(Unauthorized)
    else
      var parts := Words(header.value);
      if parts == [] then Err(ServerError)
      else if Lower(parts[0]) != "bearer" || |parts| != 2 then Err(Unauthorized)
      else Ok(parts[1])
  }

  /** Who the request is from: the stored user the token's `user_id` names. A token that
      does not decode and an unknown user are 401; an id `ObjectId` rejects raises. */
  function Authenticate(users: seq<User>, header: Option<string>, decode: string -> Option<Claims>): Result<User, Status> {
    match GateToken(header)
    case Err(e) => Err(e)
    case Ok(token) =>
      match decode(token)
      case None => Err(Unauthorized)
      case Some(claims) =>
        match ParseObjectId(claims.userId)
        case None => Err(ServerError)
        case Some(id) =>
          var i := FindUser(users, ById(id), 0);
          if i == |users| then Err(Unauthorized) else Ok(users[i])
  }

  /** Whether a decorator lets the endpoint run or answers in its place. */
  datatype Verdict = Proceed | Refuse(status: Status)

  /** `require_role(required)` given what `g` holds. */
  function RoleVerdict(hasRole: bool, role: Field, required: string): Verdict {
    if !hasRole then Refuse(Unauthorized)
    else if role != Given(required) then Refuse(Forbidden)
    else Proceed
  }

  /** Flask's `g` for one request. */
  class RequestContext {
    var hasRole: bool
    var user: Option<User>
    var userId: Id
    var role: Field

    constructor()
      ensures !hasRole && user.None?
    {
      hasRole := false;
      user := None;
      userId := "";
      role := Missing;
    }

    /** `require_auth`: on success sets `g.user`, `g.user_id` and `g.role` (from the
        stored user, not from the token) and lets the endpoint run. */
    method RequireAuth(header: Option<string>, decode: string -> Option<Claims>, store: UserStore) returns (v: Verdict)
      modifies this
      ensures var a := Authenticate(store.users, header, decode);
              && (a.Err? ==> v == Refuse(a.error) && unchanged(this))
              && (a.Ok? ==> v == Proceed && user == Some(a.value) && userId == a.value.id
                            && role == RoleOf(a.value) && hasRole)
    {
      if header.None? || header.value == "" {
        return Refuse(Unauthorized);
      }
      var parts := Words(header.value);
      if parts == [] {
        return Refuse(ServerError);
      }
      if Lower(parts[0]) != "bearer" || |parts| != 2 {
        return Refuse(Unauthorized);
      }
      var payload := decode(parts[1]);
      if payload.None? {
        return Refuse(Unauthorized);
      }
      var id := ParseObjectId(payload.value.userId);
      if id.None? {
        return Refuse(ServerError);
      }
      var i := FindUser(store.users, ById(id.value), 0);
      if i == |store.users| {
        return Refuse(Unauthorized);
      }
      var u := store.users[i];
      user := Some(u);
      userId := u.id;
      role := u.role.GetOr("patient");
      hasRole := true;
      v := Proceed;
    }

    /** `require_role(required)`. */
    method RequireRole(required: string) returns (v: Verdict)
      ensures v == RoleVerdict(hasRole, role, required)
    {
      if !hasRole {
        return Refuse(Unauthorized);
      }
      if role != Given(required) {
        return Refuse(Forbidden);
      }
      v := Proceed;
    }
  }

  // ---------------------------------------------------------------- properties

  /** A missing or empty header is 401; a header of whitespace only raises; otherwise the
      gate reads the header exactly as `me` does. */
  lemma GateHeaderCases(header: Option<string>)
    ensures header.None? || header == Some("") ==> GateToken(header) == Err(Unauthorized)
    ensures header.Some? && header.value != "" && Words(header.value) == [] ==> GateToken(header) == Err(ServerError)
    ensures header.Some? && header.value != "" && Words(header.value) == [] ==> MeToken(header) == Err(Unauthorized)
    ensures header.None? || Words(header.value) != [] ==> GateToken(header) == MeToken(header)
  {
  }

  /** A whitespace-only header is answered 500 by the gate and 401 by `me`. */
  lemma WhitespaceHeader()
    ensures GateToken(Some(" ")) == Err(ServerError)
    ensures MeToken(Some(" ")) == Err(Unauthorized)
  {
    WordsEmptyIffAllSpace(" ");
  }

  /** `Bearer <token>` with any letter case of the scheme yields the token. */
  lemma {:induction false} BearerHeader(scheme: string, token: string)
    requires Lower(scheme) == "bearer" && HasNoSpace(scheme)
    requires token != [] && HasNoSpace(token)
    ensures GateToken(Some(scheme + " " + token)) == Ok(token)
    ensures MeToken(Some(scheme + " " + token)) == Ok(token)
  {
    assert scheme != [];
    WordsOfTwo(scheme, token);
  }

  /** On success the identity is a stored user whose id the token names. */
  lemma AuthenticatedUserIsStored(users: seq<User>, header: Option<string>, decode: string -> Option<Claims>)
    requires Authenticate(users, header, decode).Ok?
    ensures var u := Authenticate(users, header, decode).value;
            && u in users
            && GateToken(header).Ok?
            && decode(GateToken(header).value).Some?
            && ParseObjectId(decode(GateToken(header).value).value.userId) == Some(u.id)
  {
  }

  /** The token's `role` and `email` claims never matter: two decoders that agree on
      which tokens decode and on their `user_id` authenticate the same user. */
  lemma TokenRoleIgnored(users: seq<User>, header: Option<string>, d1: string -> Option<Claims>, d2: string -> Option<Claims>)
    requires forall t :: d1(t).Some? == d2(t).Some?
    requires forall t | d1(t).Some? :: d1(t).value.userId == d2(t).value.userId
    ensures Authenticate(users, header, d1) == Authenticate(users, header, d2)
  {
  }

  /** `require_role` lets the endpoint run exactly for an identity with that role; a
      patient who reaches a doctor-only endpoint is refused with 403. */
  lemma RoleVerdictCases(hasRole: bool, role: Field, required: string)
    ensures RoleVerdict(hasRole, role, required) == Proceed <==> hasRole && role == Given(required)
    ensures !hasRole ==> RoleVerdict(hasRole, role, required) == Refuse(Unauthorized)
    ensures hasRole && role == Given("patient") && required == "doctor" ==> RoleVerdict(hasRole, role, required) == Refuse(Forbidden)
  {
  }

  /** A stored user without a role acts as a patient and cannot pass a doctor-only gate. */
  lemma UserWithoutRoleIsPatient(users: seq<User>, header: Option<string>, decode: string -> Option<Claims>)
    requires Authenticate(users, header, decode).Ok?
    requires Authenticate(users, header, decode).value.role == Missing
    ensures RoleVerdict(true, RoleOf(Authenticate(users, header, decode).value), "doctor") == Refuse(Forbidden)
  {
  }
}
