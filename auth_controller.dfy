/** The auth controller: registration and profile update change the user
    collection (`registerUser`, `updateUser`); login is a lookup and a
    password comparison (`loginUser`). Every success answers with the
    user's public fields and a fresh token for the user's id. The request
    body's fields are strings, "" standing for an absent or empty field
    (both are falsy). */
module AuthController {

  import opened Common
  import opened Crypto

  /** A stored user; `passwordHash` is what the user model keeps in its
      password field. */
  datatype User = User(id: Id, name: string, email: string, passwordHash: string)

  /** `{ _id, name, email, token }` */
  datatype AuthResponse = AuthResponse(id: Id, name: string, email: string, token: string)

  predicate UniqueUserIds(users: seq<User>) {
    forall i, j :: 0 <= i < j < |users| ==> users[i].id != users[j].id
  }

  predicate UniqueEmails(users: seq<User>) {
    forall i, j :: 0 <= i < j < |users| ==> users[i].email != users[j].email
  }

  /** `User.findOne({ email })`: the position of the first user with that email. */
  function FindByEmail(users: seq<User>, email: string): (r: Option<nat>)
    ensures r.Some? ==> r.value < |users| && users[r.value].email == email
    ensures r.Some? ==> forall k :: 0 <= k < r.value ==> users[k].email != email
    ensures r.None? <==> forall k :: 0 <= k < |users| ==> users[k].email != email
  {
    if users == [] then None
    else if users[0].email == email then Some(0)
    else match FindByEmail(users[1..], email)
      case None => None
      case Some(k) => Some(k + 1)
  }

  /** `User.findById(id)`: the position of the user with that id. */
  function FindUserById(users: seq<User>, id: Id): (r: Option<nat>)
    ensures r.Some? ==> r.value < |users| && users[r.value].id == id
    ensures r.None? <==> forall k :: 0 <= k < |users| ==> users[k].id != id
  {
    FindById(users, (u: User) => u.id, id)
  }

  /** The success body for `u`, with a token issued at `now` for `u`'s id. */
  function Respond(cfg: TokenConfig, u: User, now: int): (r: AuthResponse)
    ensures r.id == u.id && r.name == u.name && r.email == u.email
  {
    AuthResponse(u.id, u.name, u.email, GenerateToken(cfg, u.id, now))
  }

  /** The token in a success body verifies to that user until thirty days
      (less the second it was issued in) have passed, and is expired after. */
  lemma RespondTokenVerifies(cfg: TokenConfig, u: User, now: int, later: int)
    requires SoundSigner(cfg.signer)
    ensures later <= now + (ExpiresIn - 1) * 1000 ==> Verify(cfg, Respond(cfg, u, now).token, later) == Verified(u.id)
    ensures later >= now + ExpiresIn * 1000 ==> Verify(cfg, Respond(cfg, u, now).token, later) == Expired
  {
    TokenLifetime(cfg, u.id, now, later);
  }

  const MissingCredentials := "Please provide both email and password"
  const BadCredentials := "Invalid email or password"

  /** `loginUser`: 400 when either field is missing; the same 401 for an
      unknown email and for a wrong password; otherwise 200 with the user's
      public fields and a fresh token. */
  function LoginUser(users: seq<User>, h: Hasher, cfg: TokenConfig, email: string, password: string, now: int): (r: Reply<AuthResponse>)
    ensures email == "" || password == "" ==> r == Failure(400, MissingCredentials)
    ensures email != "" && password != "" && r.Failure? ==> r == Failure(401, BadCredentials)
    ensures r.Success? <==>
      && email != "" && password != ""
      && FindByEmail(users, email).Some?
      && ComparePassword(h, password, users[FindByEmail(users, email).value].passwordHash)
    ensures r.Success? ==>
      r.status == 200 && r.value == Respond(cfg, users[FindByEmail(users, email).value], now)
  {
    if email == "" || password == "" then Failure(400, MissingCredentials)
    else match FindByEmail(users, email)
      case None => Failure(401, BadCredentials)
      case Some(i) =>
        if !ComparePassword(h, password, users[i].passwordHash) then Failure(401, BadCredentials)
        else Success(200, Respond(cfg, users[i], now))
  }

  /** An unknown email and a wrong password for a known one get the very same
      answer, so the reply does not reveal which emails are registered. */
  lemma LoginFailuresIndistinguishable(users: seq<User>, h: Hasher, cfg: TokenConfig,
                                       unknown: string, p1: string, known: string, p2: string, now: int)
    requires unknown != "" && p1 != "" && known != "" && p2 != ""
    requires forall k :: 0 <= k < |users| ==> users[k].email != unknown
    requires exists k :: 0 <= k < |users| && users[k].email == known
    requires UniqueEmails(users)
    requires forall k :: 0 <= k < |users| && users[k].email == known ==> !ComparePassword(h, p2, users[k].passwordHash)
    ensures LoginUser(users, h, cfg, unknown, p1, now) == LoginUser(users, h, cfg, known, p2, now)
    ensures LoginUser(users, h, cfg, unknown, p1, now) == Failure(401, BadCredentials)
  {
    var i := FindByEmail(users, known);
    assert i.Some?;
  }

  /** With collision-free hashing, login succeeds exactly for the password the
      matching user registered with, and answers for that user. */
  lemma LoginSucceedsIff(users: seq<User>, h: Hasher, cfg: TokenConfig, email: string, password: string,
                         k: nat, registered: string, now: int)
    requires CollisionFree(h) && UniqueEmails(users)
    requires k < |users| && users[k].email == email && users[k].passwordHash == h.hash(registered)
    requires email != "" && password != ""
    ensures LoginUser(users, h, cfg, email, password, now).Success? <==> password == registered
    ensures password == registered ==> LoginUser(users, h, cfg, email, password, now).value == Respond(cfg, users[k], now)
  {
    var i := FindByEmail(users, email);
    assert i == Some(k);
    CompareHashed(h, password, registered);
  }

  const MissingFields := "Please provide all required fields (name, email, password)"
  const EmailTaken := "User already exists with this email"

  /** What `updateUser` writes into the record: the new name when truthy, the
      new password (hashed on save) when truthy; the email never changes. */
  function UpdatedUser(h: Hasher, u: User, name: string, password: string): (v: User)
    ensures v.id == u.id && v.email == u.email
    ensures v.name == (if name != "" then name else u.name)
    ensures password == "" ==> v.passwordHash == u.passwordHash
    ensures password != "" ==> v.passwordHash == h.hash(password)
  {
    User(u.id, if name != "" then name else u.name, u.email,
         if password != "" then h.hash(password) else u.passwordHash)
  }

  /** The user collection. */
  class UserStore {
    /** The users in insertion order. */
    var users: seq<User>
    /** The next fresh id. */
    var nextId: Id

    ghost predicate Valid()
      reads this
    {
      && UniqueUserIds(users)
      && UniqueEmails(users)
      && forall k :: 0 <= k < |users| ==> users[k].id < nextId
    }

    constructor ()
      ensures Valid() && users == []
    {
      users := [];
      nextId := 0;
    }

    /** `registerUser`: 400 when a field is missing, 400 when the email is
        taken (whatever the name and password), otherwise the new user is
        appended with the hash of the password, and 201 answers with its
        public fields and a fresh token. */
    method RegisterUser(h: Hasher, cfg: TokenConfig, name: string, email: string, password: string, now: int)
      returns (reply: Reply<AuthResponse>)
      requires Valid()
      modifies this
      ensures Valid()
      ensures name == "" || email == "" || password == "" ==>
        reply == Failure(400, MissingFields) && users == old(users) && nextId == old(nextId)
      ensures name != "" && email != "" && password != "" && FindByEmail(old(users), email).Some? ==>
        reply == Failure(400, EmailTaken) && users == old(users) && nextId == old(nextId)
      ensures name != "" && email != "" && password != "" && FindByEmail(old(users), email).None? ==>
        var u := User(old(nextId), name, email, h.hash(password));
        && users == old(users) + [u]
        && reply == Success(201, Respond(cfg, u, now))
        && forall k :: 0 <= k < |old(users)| ==> old(users)[k].id != u.id
    {
      if name == "" || email == "" || password == "" {
        return Failure(400, MissingFields);
      }
      if FindByEmail(users, email).Some? {
        return Failure(400, EmailTaken);
      }
      var u := User(nextId, name, email, h.hash(password));
      users := users + [u];
      nextId := nextId + 1;
      reply := Success(201, Respond(cfg, u, now));
    }

    /** `updateUser` for the user the guard attached: 404 when its id no
        longer resolves, otherwise that one record is rewritten by
        `UpdatedUser` and 200 answers with a fresh token. */
    method UpdateUser(h: Hasher, cfg: TokenConfig, reqUserId: Id, name: string, password: string, now: int)
      returns (reply: Reply<AuthResponse>)
      requires Valid()
      modifies this
      ensures Valid()
      ensures nextId == old(nextId)
      ensures FindUserById(old(users), reqUserId).None? ==>
        reply == Failure(404, "User not found") && users == old(users)
      ensures FindUserById(old(users), reqUserId).Some? ==>
        var i := FindUserById(old(users), reqUserId).value;
        && users == old(users)[i := UpdatedUser(h, old(users)[i], name, password)]
        && reply == Success(200, Respond(cfg, users[i], now))
    {
      var found := FindUserById(users, reqUserId);
      if found.None? {
        return Failure(404, "User not found");
      }
      var i := found.value;
      users := users[i := UpdatedUser(h, users[i], name, password)];
      reply := Success(200, Respond(cfg, users[i], now));
    }
  }
}
