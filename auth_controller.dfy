/** Account handlers: registration, login, the caller's profile and its update.
    Password hashing and comparison are parameters (`hashed` is what bcrypt
    returned for the new password; `matches(plain, hash)` is bcrypt's compare). */
module AuthController {
  import opened Common
  import opened Tables
  import opened Database
  import opened Middleware

  function UsernameOrEmail(username: string, email: string): User -> bool {
    (u: User) => u.username == username || u.email == email
  }

  /** The token `generateToken` is asked for on behalf of a stored user. */
  function TokenFor(s: State, id: Id, secret: Option<string>, expiresIn: Option<string>): (r: Option<SignRequest>)
    requires id in s.users.rows
    ensures r.Some? ==>
      (r.value.payload == Claims(id, s.users.rows[id].username, s.users.rows[id].email, RoleName(s.users.rows[id].role)))
    ensures r.None? <==> !Truthy(secret)
  {
    var u := s.users.rows[id];
    GenerateToken(id, u.username, u.email, RoleName(u.role), secret, expiresIn)
  }

  datatype RegisterRequest = RegisterRequest(username: Option<string>, email: Option<string>, password: Option<string>)

  /** `register`: 400 without username, email and password or for a password under
      six characters, 409 when the username or the email is taken; otherwise one
      active USER is stored and a token for it issued (201). Without a signing
      secret the token cannot be issued: 500, with the user already stored. */
  function RegisterOutcome(s: State, req: RegisterRequest, hashed: string, secret: Option<string>, expiresIn: Option<string>)
    : (r: (Outcome, Option<SignRequest>))
    requires WellFormedState(s)
    ensures r.0.status == BAD_REQUEST <==> (!Truthy(req.username) || !Truthy(req.email) || !Truthy(req.password)
      || |req.password.value| < 6)
    ensures r.0.status == CONFLICT <==> (Truthy(req.username) && Truthy(req.email) && Truthy(req.password)
      && |req.password.value| >= 6
      && exists id :: id in s.users.rows && (s.users.rows[id].username == req.username.value || s.users.rows[id].email == req.email.value))
    ensures r.0.status == BAD_REQUEST || r.0.status == CONFLICT ==> r.0.state == s && r.1.None?
    ensures r.0.status == CREATED || r.0.status == SERVER_ERROR ==>
      r.0.id == Some(s.users.next)
      && r.0.state == s.(users := Insert(s.users, User(req.username.value, req.email.value, hashed, USER, true)))
    ensures r.0.status == CREATED <==> r.1.Some?
    ensures r.1.Some? ==> r.1.value.payload == Claims(s.users.next, req.username.value, req.email.value, "USER")
    ensures r.0.status in {BAD_REQUEST, CONFLICT, CREATED, SERVER_ERROR}
  {
    if !Truthy(req.username) || !Truthy(req.email) || !Truthy(req.password) then (Outcome(BAD_REQUEST, s, None), None)
    else if |req.password.value| < 6 then (Outcome(BAD_REQUEST, s, None), None)
    else if First(s.users, UsernameOrEmail(req.username.value, req.email.value)).Some? then (Outcome(CONFLICT, s, None), None)
    else
      var id := s.users.next;
      var created := s.(users := Insert(s.users, User(req.username.value, req.email.value, hashed, USER, true)));
      var token := TokenFor(created, id, secret, expiresIn);
      if token.None? then (Outcome(SERVER_ERROR, created, Some(id)), None)
      else (Outcome(CREATED, created, Some(id)), token)
  }

  method Register(db: Store, req: RegisterRequest, hashed: string, secret: Option<string>, expiresIn: Option<string>)
    returns (status: nat, id: Option<Id>, token: Option<SignRequest>)
    requires db.Valid()
    modifies db
    ensures (Outcome(status, db.Snapshot(), id), token) == RegisterOutcome(old(db.Snapshot()), req, hashed, secret, expiresIn)
    ensures db.Valid()
  {
    RegisterKeepsValid(db.Snapshot(), req, hashed, secret, expiresIn);
    if !Truthy(req.username) || !Truthy(req.email) || !Truthy(req.password) {
      return BAD_REQUEST, None, None;
    }
    if |req.password.value| < 6 {
      return BAD_REQUEST, None, None;
    }
    var existing := First(db.users, UsernameOrEmail(req.username.value, req.email.value));
    if existing.Some? {
      return CONFLICT, None, None;
    }
    id := Some(db.users.next);
    db.users := Insert(db.users, User(req.username.value, req.email.value, hashed, USER, true));
    token := TokenFor(db.Snapshot(), id.value, secret, expiresIn);
    status := if token.None? then SERVER_ERROR else CREATED;
  }

  /** Registration keeps usernames and emails unique. */
  lemma RegisterKeepsValid(s: State, req: RegisterRequest, hashed: string, secret: Option<string>, expiresIn: Option<string>)
    requires ValidState(s)
    ensures ValidState(RegisterOutcome(s, req, hashed, secret, expiresIn).0.state)
  {
    var o := RegisterOutcome(s, req, hashed, secret, expiresIn).0;
    if o.status == CREATED || o.status == SERVER_ERROR {
      InsertWellFormed(s.users, User(req.username.value, req.email.value, hashed, USER, true));
    }
  }

  datatype LoginRequest = LoginRequest(username: Option<string>, email: Option<string>, password: Option<string>)

  /** `username || email`. */
  function Identifier(req: LoginRequest): (r: Option<string>)
    ensures Truthy(req.username) ==> r == req.username
    ensures !Truthy(req.username) ==> r == req.email
  {
    if Truthy(req.username) then req.username else req.email
  }

  /** `login`: 400 without an identifier or a password, 401 when no user has it as
      username or email, 403 for a deactivated account (before the password is
      compared), 401 for a wrong password, 500 without a signing secret; otherwise
      200 with a token for the first matching user. Nothing is stored. */
  function Login(s: State, req: LoginRequest, matches: (string, string) -> bool, secret: Option<string>, expiresIn: Option<string>)
    : (r: (nat, Option<Id>, Option<SignRequest>))
    requires WellFormedState(s)
    ensures r.0 == BAD_REQUEST <==> !Truthy(Identifier(req)) || !Truthy(req.password)
    ensures r.0 == FORBIDDEN_STATUS ==> r.1.Some? && r.1.value in s.users.rows && !s.users.rows[r.1.value].isActive
    ensures r.0 == OK ==>
      (r.1.Some? && r.1.value in s.users.rows
       && var u := s.users.rows[r.1.value];
          (u.username == Identifier(req).value || u.email == Identifier(req).value)
          && u.isActive && matches(req.password.value, u.passwordHash)
          && r.2 == TokenFor(s, r.1.value, secret, expiresIn) && r.2.Some?)
    ensures r.0 == UNAUTHORIZED && Truthy(Identifier(req)) && Truthy(req.password) && r.1.None? ==>
      forall id :: id in s.users.rows ==> s.users.rows[id].username != Identifier(req).value && s.users.rows[id].email != Identifier(req).value
    ensures r.0 != OK ==> r.2.None?
    ensures r.0 in {BAD_REQUEST, UNAUTHORIZED, FORBIDDEN_STATUS, SERVER_ERROR, OK}
    ensures r.0 != BAD_REQUEST ==>
      r.1 == First(s.users, UsernameOrEmail(Identifier(req).value, Identifier(req).value))
    ensures r.0 != BAD_REQUEST && r.1.None? ==> r.0 == UNAUTHORIZED
    ensures r.0 != BAD_REQUEST && r.1.Some? ==>
      (r.1.value in s.users.rows
       && var u := s.users.rows[r.1.value];
          r.0 == (if !u.isActive then FORBIDDEN_STATUS
                  else if !matches(req.password.value, u.passwordHash) then UNAUTHORIZED
                  else if TokenFor(s, r.1.value, secret, expiresIn).Some? then OK
                  else SERVER_ERROR))
  {
    var identifier := Identifier(req);
    if !Truthy(identifier) || !Truthy(req.password) then (BAD_REQUEST, None, None)
    else
      match First(s.users, UsernameOrEmail(identifier.value, identifier.value))
      case None =>
        assert forall id :: id in s.users.rows ==> !UsernameOrEmail(identifier.value, identifier.value)(s.users.rows[id]);
        (UNAUTHORIZED, None, None)
      case Some(id) =>
        var u := s.users.rows[id];
        if !u.isActive then (FORBIDDEN_STATUS, Some(id), None)
        else if !matches(req.password.value, u.passwordHash) then (UNAUTHORIZED, Some(id), None)
        else
          var token := TokenFor(s, id, secret, expiresIn);
          if token.None? then (SERVER_ERROR, Some(id), None) else (OK, Some(id), token)
  }

  /** A deactivated account is refused whatever password is offered, when its
      username is no other account's email (otherwise the lookup may find that
      other account first). */
  lemma DeactivatedNeverLogsIn(s: State, req: LoginRequest, matches: (string, string) -> bool,
                               secret: Option<string>, expiresIn: Option<string>, id: Id)
    requires ValidState(s) && id in s.users.rows && !s.users.rows[id].isActive
    requires req.username == Some(s.users.rows[id].username) && s.users.rows[id].username != ""
    requires forall j :: j in s.users.rows && j != id ==> s.users.rows[j].email != s.users.rows[id].username
    requires Truthy(req.password)
    ensures Login(s, req, matches, secret, expiresIn).0 == FORBIDDEN_STATUS
  {
    var first := First(s.users, UsernameOrEmail(s.users.rows[id].username, s.users.rows[id].username));
    assert first.Some?;
  }

  datatype Profile = Profile(user: User, collections: int, decks: int, wishlists: int)

  function CollectionOf(user: Id): Collection -> bool { (c: Collection) => c.userId == user }
  function DeckOf(user: Id): Deck -> bool { (d: Deck) => d.userId == user }
  function WishOf(user: Id): WishlistItem -> bool { (w: WishlistItem) => w.userId == user }

  /** `getMe`: the caller's account with the numbers of their collections, decks and wishlist rows. */
  function GetMe(s: State, caller: Option<Id>): (r: (nat, Option<Profile>))
    requires WellFormedState(s)
    ensures r.0 == UNAUTHORIZED <==> caller.None?
    ensures r.0 == NOT_FOUND <==> caller.Some? && caller.value !in s.users.rows
    ensures r.0 in {UNAUTHORIZED, NOT_FOUND, OK}
    ensures r.0 == OK <==> r.1.Some?
    ensures r.1.Some? ==>
      r.1.value.user == s.users.rows[caller.value]
      && r.1.value.decks == |Select(s.decks, DeckOf(caller.value))|
      && r.1.value.collections == |Select(s.collections, CollectionOf(caller.value))|
      && r.1.value.wishlists == |Select(s.wishlists, WishOf(caller.value))|
  {
    if caller.None? then (UNAUTHORIZED, None)
    else if caller.value !in s.users.rows then (NOT_FOUND, None)
    else
      var id := caller.value;
      CountSelect(s.collections, CollectionOf(id));
      CountSelect(s.decks, DeckOf(id));
      CountSelect(s.wishlists, WishOf(id));
      (OK, Some(Profile(s.users.rows[id], Count(s.collections, CollectionOf(id)), Count(s.decks, DeckOf(id)),
        Count(s.wishlists, WishOf(id)))))
  }

  datatype ProfileUpdate = ProfileUpdate(email: Option<string>, password: Option<string>, currentPassword: Option<string>)

  function EmailTakenByOther(email: string, self: Id, rows: map<Id, User>): bool {
    exists id :: id in rows && id != self && rows[id].email == email
  }

  /** The password part of an update may proceed: no new password is given, or
      the current one is given and matches the stored account's hash. */
  predicate PasswordChangeAllowed(s: State, self: Id, req: ProfileUpdate, matches: (string, string) -> bool) {
    !Truthy(req.password)
    || (Truthy(req.currentPassword) && self in s.users.rows
        && matches(req.currentPassword.value, s.users.rows[self].passwordHash))
  }

  /** `updateMe`: a truthy new password needs a current password (400), a stored
      account (404) and a matching current password (401) and is then stored as
      `hashed`; a truthy new email must not belong to another account (409).
      Fields not supplied stay as they were; updating an account that is gone
      fails in the database (500). */
  function UpdateMeOutcome(s: State, caller: Option<Id>, req: ProfileUpdate, matches: (string, string) -> bool, hashed: string)
    : (o: Outcome)
    requires WellFormedState(s)
    ensures o.status != OK ==> o.state == s
    ensures o.status == UNAUTHORIZED <==> (caller.None?
      || (Truthy(req.password) && Truthy(req.currentPassword) && caller.value in s.users.rows
          && !matches(req.currentPassword.value, s.users.rows[caller.value].passwordHash)))
    ensures o.status == BAD_REQUEST <==> caller.Some? && Truthy(req.password) && !Truthy(req.currentPassword)
    ensures o.status == NOT_FOUND <==> (caller.Some? && Truthy(req.password) && Truthy(req.currentPassword)
      && caller.value !in s.users.rows)
    ensures o.status == CONFLICT <==> (caller.Some? && PasswordChangeAllowed(s, caller.value, req, matches)
      && Truthy(req.email) && EmailTakenByOther(req.email.value, caller.value, s.users.rows))
    ensures o.status == SERVER_ERROR <==> (caller.Some? && PasswordChangeAllowed(s, caller.value, req, matches)
      && !(Truthy(req.email) && EmailTakenByOther(req.email.value, caller.value, s.users.rows))
      && caller.value !in s.users.rows)
    ensures o.status in {OK, UNAUTHORIZED, BAD_REQUEST, NOT_FOUND, CONFLICT, SERVER_ERROR}
    ensures o.status == OK ==>
      (caller.Some? && caller.value in s.users.rows && o.id == caller && caller.value in o.state.users.rows
       && var u := s.users.rows[caller.value];
          var v := o.state.users.rows[caller.value];
          o.state == s.(users := Put(s.users, caller.value, v))
          && v.username == u.username && v.role == u.role && v.isActive == u.isActive
          && (Truthy(req.email) ==> v.email == req.email.value && !EmailTakenByOther(req.email.value, caller.value, s.users.rows))
          && (!Truthy(req.email) ==> v.email == u.email)
          && (Truthy(req.password) ==> v.passwordHash == hashed && matches(req.currentPassword.value, u.passwordHash))
          && (!Truthy(req.password) ==> v.passwordHash == u.passwordHash))
  {
    if caller.None? then Outcome(UNAUTHORIZED, s, None)
    else
      var id := caller.value;
      if Truthy(req.password) && !Truthy(req.currentPassword) then Outcome(BAD_REQUEST, s, None)
      else if Truthy(req.password) && id !in s.users.rows then Outcome(NOT_FOUND, s, None)
      else if Truthy(req.password) && !matches(req.currentPassword.value, s.users.rows[id].passwordHash) then
        Outcome(UNAUTHORIZED, s, None)
      else
        var others := Remove(s.users, id);
        assert forall k :: k in others.rows <==> k in s.users.rows && k != id;
        if Truthy(req.email) && First(others, (u: User) => u.email == req.email.value).Some? then
          Outcome(CONFLICT, s, None)
        else if id !in s.users.rows then Outcome(SERVER_ERROR, s, None)
        else
          var u := s.users.rows[id];
          var v := u.(passwordHash := if Truthy(req.password) then hashed else u.passwordHash,
                      email := if Truthy(req.email) then req.email.value else u.email);
          Outcome(OK, s.(users := Put(s.users, id, v)), Some(id))
  }

  method UpdateMe(db: Store, caller: Option<Id>, req: ProfileUpdate, matches: (string, string) -> bool, hashed: string)
    returns (status: nat, id: Option<Id>)
    requires db.Valid()
    modifies db
    ensures Outcome(status, db.Snapshot(), id) == UpdateMeOutcome(old(db.Snapshot()), caller, req, matches, hashed)
    ensures db.Valid()
  {
    UpdateMeKeepsValid(db.Snapshot(), caller, req, matches, hashed);
    if caller.None? {
      return UNAUTHORIZED, None;
    }
    var self := caller.value;
    var newHash: Option<string> := None;
    if Truthy(req.password) {
      if !Truthy(req.currentPassword) {
        return BAD_REQUEST, None;
      }
      if self !in db.users.rows {
        return NOT_FOUND, None;
      }
      if !matches(req.currentPassword.value, db.users.rows[self].passwordHash) {
        return UNAUTHORIZED, None;
      }
      newHash := Some(hashed);
    }
    var newEmail: Option<string> := None;
    if Truthy(req.email) {
      var taken := First(Remove(db.users, self), (u: User) => u.email == req.email.value);
      if taken.Some? {
        return CONFLICT, None;
      }
      newEmail := req.email;
    }
    if self !in db.users.rows {
      return SERVER_ERROR, None;
    }
    var u := db.users.rows[self];
    db.users := Put(db.users, self, u.(passwordHash := newHash.GetOr(u.passwordHash), email := newEmail.GetOr(u.email)));
    status, id := OK, caller;
  }

  /** Updating the profile keeps emails unique. */
  lemma UpdateMeKeepsValid(s: State, caller: Option<Id>, req: ProfileUpdate, matches: (string, string) -> bool, hashed: string)
    requires ValidState(s)
    ensures ValidState(UpdateMeOutcome(s, caller, req, matches, hashed).state)
  {
  }
}
