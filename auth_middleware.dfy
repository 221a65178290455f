/** The access guard `protect`: read the `Authorization` header, take the
    token after the `Bearer` scheme (loosely after section 2.1 of RFC 6750:
    the scheme is matched as a case-sensitive prefix and the token is the
    second space-separated field), verify it, look its user up, and either
    reject with a 401 and a specific message or attach the user to the
    request and pass control on. */
module AuthMiddleware {

  import opened Common
  import opened Strings
  import opened Crypto
  import opened AuthController

  /** A user as `findById(id).select('-password')` yields it. */
  datatype PublicUser = PublicUser(id: Id, name: string, email: string)

  function WithoutPassword(u: User): (p: PublicUser)
    ensures p.id == u.id && p.name == u.name && p.email == u.email
  {
    PublicUser(u.id, u.name, u.email)
  }

  /** The three outcomes of the user lookup: a user, no user (`null`), or an
      error thrown by the store. */
  datatype Lookup = Found(user: PublicUser) | Missing | LookupFailed

  /** The lookup over the user collection; it never fails. */
  function LookupIn(users: seq<User>, id: Id): (r: Lookup)
    ensures r.LookupFailed? == false
    ensures r.Found? <==> FindUserById(users, id).Some?
    ensures r.Found? ==> r.user == WithoutPassword(users[FindUserById(users, id).value])
  {
    match FindUserById(users, id)
    case None => Missing
    case Some(i) => Found(WithoutPassword(users[i]))
  }

  const Scheme := "Bearer"

  /** The token of an `Authorization` header: present exactly when the
      header is there, starts with `Bearer` and has a non-empty second field
      when split on single spaces, and then it is that field. */
  function ExtractToken(header: Option<string>): (r: Option<string>)
    ensures header.None? || !StartsWith(header.value, Scheme) ==> r.None?
    ensures r.Some? ==> r.value != "" && ' ' !in r.value
    ensures r.Some? ==> |Split(header.value, ' ')| >= 2 && r.value == Split(header.value, ' ')[1]
    ensures (header.Some? && StartsWith(header.value, Scheme) && |Split(header.value, ' ')| >= 2
             && Split(header.value, ' ')[1] != "") ==> r == Some(Split(header.value, ' ')[1])
  {
    if header.None? || !StartsWith(header.value, Scheme) then None
    else
      var fields := Split(header.value, ' ');
      if |fields| < 2 || fields[1] == "" then None else Some(fields[1])
  }

  /** The header the client builds recovers exactly the token it was built from. */
  lemma ExtractBearer(token: string)
    requires token != "" && ' ' !in token
    ensures ExtractToken(Some(Scheme + " " + token)) == Some(token)
  {
    var parts := [Scheme, token];
    assert Join(parts, ' ') == Scheme + " " + token by {
      assert parts[1..] == [token];
    }
    SplitJoin(parts, ' ');
    assert StartsWith(Scheme + " " + token, Scheme) by {
      assert (Scheme + " " + token)[..|Scheme|] == Scheme;
    }
  }

  /** Headers the guard reads as carrying no token: the bare scheme, the
      scheme run into the token, a doubled space, and a lower-case scheme. */
  lemma NoTokenHeaders()
    ensures ExtractToken(Some("Bearer")) == None
    ensures ExtractToken(Some("Bearerxyz")) == None
    ensures ExtractToken(Some("Bearer  x")) == None
    ensures ExtractToken(Some("bearer x")) == None
  {
    SplitJoin(["Bearer"], ' ');
    SplitJoin(["Bearerxyz"], ' ');
    assert Join(["Bearer", "", "x"], ' ') == "Bearer  x";
    SplitJoin(["Bearer", "", "x"], ' ');
    assert !StartsWith("bearer x", Scheme) by {
      assert "bearer x"[0] != Scheme[0];
    }
  }

  const NoToken := "Not authorized, no token provided"
  const TokenExpired := "Not authorized, token expired"
  const InvalidToken := "Not authorized, invalid token"
  const UserGone := "Not authorized, user no longer exists"

  /** What the guard decides: reject with a status and message, or let the
      request through on behalf of a user. */
  datatype Outcome = Reject(status: int, message: string) | Proceed(user: PublicUser)

  /** The guard's decision chain over the header, the token verdict at clock
      time `now` and the user lookup. */
  function Decide(header: Option<string>, cfg: TokenConfig, now: int, lookup: Id -> Lookup): (r: Outcome)
    ensures r.Reject? ==> r.status == 401
    ensures ExtractToken(header).None? ==> r == Reject(401, NoToken)
    ensures r.Proceed? <==>
      && ExtractToken(header).Some?
      && Verify(cfg, ExtractToken(header).value, now).Verified?
      && lookup(Verify(cfg, ExtractToken(header).value, now).id).Found?
    ensures r.Proceed? ==> r.user == lookup(Verify(cfg, ExtractToken(header).value, now).id).user
  {
    match ExtractToken(header)
    case None => Reject(401, NoToken)
    case Some(token) =>
      match Verify(cfg, token, now)
      case Expired => Reject(401, TokenExpired)
      case Invalid => Reject(401, InvalidToken)
      case Verified(id) =>
        match lookup(id)
        case LookupFailed => Reject(401, InvalidToken)
        case Missing => Reject(401, UserGone)
        case Found(u) => Proceed(u)
  }

  /** Each failure of a well-formed header has its own message: the expired
      token, any other verification failure or a failing lookup, and a user
      that no longer exists. */
  lemma RejectionMessages(header: Option<string>, cfg: TokenConfig, now: int, lookup: Id -> Lookup)
    requires ExtractToken(header).Some?
    ensures var v := Verify(cfg, ExtractToken(header).value, now);
      && (v.Expired? ==> Decide(header, cfg, now, lookup) == Reject(401, TokenExpired))
      && (v.Invalid? ==> Decide(header, cfg, now, lookup) == Reject(401, InvalidToken))
      && (v.Verified? && lookup(v.id).LookupFailed? ==> Decide(header, cfg, now, lookup) == Reject(401, InvalidToken))
      && (v.Verified? && lookup(v.id).Missing? ==> Decide(header, cfg, now, lookup) == Reject(401, UserGone))
  {}

  /** A request as the guard sees it: the header it carries and the user the
      guard attaches. */
  class Request {
    var authorization: Option<string>
    var user: Option<PublicUser>

    constructor (authorization: Option<string>)
      ensures this.authorization == authorization && user == None
    {
      this.authorization := authorization;
      user := None;
    }

    /** `protect`: on success `req.user` is the looked-up user and `next` is
        called; a user that no longer exists leaves `req.user` empty (it was
        assigned the lookup's `null`); every other rejection leaves it as it
        was. */
    method Protect(cfg: TokenConfig, now: int, lookup: Id -> Lookup) returns (outcome: Outcome, next: bool)
      modifies this
      ensures outcome == Decide(old(authorization), cfg, now, lookup)
      ensures next <==> outcome.Proceed?
      ensures authorization == old(authorization)
      ensures outcome.Proceed? ==> user == Some(outcome.user)
      ensures outcome == Reject(401, UserGone) ==> user == None
      ensures outcome.Reject? && outcome.message != UserGone ==> user == old(user)
    {
      next := false;
      var token := ExtractToken(authorization);
      if token.None? {
        outcome := Reject(401, NoToken);
        return;
      }
      var verdict := Verify(cfg, token.value, now);
      if verdict.Expired? {
        outcome := Reject(401, TokenExpired);
        return;
      }
      if verdict.Invalid? {
        outcome := Reject(401, InvalidToken);
        return;
      }
      var found := lookup(verdict.id);
      if found.LookupFailed? {
        outcome := Reject(401, InvalidToken);
        return;
      }
      if found.Missing? {
        user := None;
        outcome := Reject(401, UserGone);
        return;
      }
      user := Some(found.user);
      outcome := Proceed(found.user);
      next := true;
    }
  }
}
