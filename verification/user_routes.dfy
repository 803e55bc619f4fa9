/**
 The handlers of the user router, each a pure transition from a store and the request's inputs
 to a new store and a response. Time, the result of mail delivery, a new document's id and the
 reset token generator's output are inputs.
 */
module UserRoutes {
  import opened Wrappers
  import opened UserStore
  import opened Collaborators

  /** The account the delete handler refuses to remove. */
  const ProtectedEmail := "admin@example.com"

  const MsgUserNotFound := "User Not Found"
  const MsgCannotDeleteAdmin := "Can Not Delete Admin User"
  const MsgUserUpdated := "User Updated"
  const MsgUserDeleted := "User Deleted"
  const MsgInvalidCredentials := "Invalid email or password"
  const MsgNoSuchEmail := "User not found!"
  const MsgTokenSent := "Token sent to email!"
  const MsgEmailFailed := "Error sending email!"
  const MsgPasswordChanged := "Password changed successfully"
  const MsgTokenInvalid := "Token is invalid or has expired"
  const MsgProfileNotFound := "User not found"

  /** A JSON request value, for `Boolean(...)`. Numbers are reals, so NaN does not arise. */
  datatype JsValue = Undefined | Null | Bool(b: bool) | Number(n: real) | Str(s: string) | Compound

  /** JavaScript's `Boolean(v)`. */
  predicate ToBoolean(v: JsValue) {
    match v
    case Undefined => false
    case Null => false
    case Bool(b) => b
    case Number(n) => n != 0.0
    case Str(t) => t != ""
    case Compound => true
  }

  /** A string body field is truthy: present and not empty. */
  predicate Supplied(v: Option<string>) {
    v.Some? && ToBoolean(Str(v.value))
  }

  /** `v || fallback` for a string body field. */
  function OrElse(v: Option<string>, fallback: string): (r: string)
    ensures Supplied(v) ==> r == v.value
    ensures !Supplied(v) ==> r == fallback
  {
    if Supplied(v) then v.value else fallback
  }

  datatype AdminUpdate = AdminUpdate(name: Option<string>, email: Option<string>, isAdmin: JsValue)
  datatype ProfileUpdate = ProfileUpdate(name: Option<string>, email: Option<string>, password: Option<string>)

  datatype Body =
    | UserList(users: seq<(UserId, User)>)
    | UserDoc(id: UserId, user: User)
    | UserUpdated(message: string, id: UserId, user: User)
    | Message(message: string)
    | Identity(id: UserId, name: string, email: string, isAdmin: bool, token: string)
    | Success(message: string)

  /** `Ok` is sent with status 200. */
  datatype Response = Ok(body: Body) | Fail(status: int, message: string)

  datatype Step = Step(store: Store, response: Response)

  /** The identity payload of sign-in, sign-up and profile update; it never carries the hash. */
  function IdentityOf(c: Services, id: UserId, u: User): Body {
    Identity(id, u.name, u.email, u.isAdmin, c.generateToken(id, u))
  }

  /** GET / */
  function ListUsers(s: Store): (r: Step)
    requires Valid(s)
    ensures r.store == s && r.response.Ok? && r.response.body.UserList?
    ensures forall id :: id in s.users ==>
      exists i :: 0 <= i < |r.response.body.users| && r.response.body.users[i] == (id, s.users[id])
    ensures forall p :: p in r.response.body.users ==> p.0 in s.users && p.1 == s.users[p.0]
    ensures forall i, j :: 0 <= i < j < |r.response.body.users| ==> r.response.body.users[i].0 != r.response.body.users[j].0
  {
    var all := All(s);
    assert forall p :: p in all ==> p.0 in s.users && p.1 == s.users[p.0] by {
      forall p | p in all ensures p.0 in s.users && p.1 == s.users[p.0] {
        var i :| 0 <= i < |all| && all[i] == p;
      }
    }
    Step(s, Ok(UserList(all)))
  }

  /** GET /:id */
  function GetUser(s: Store, id: UserId): (r: Step)
    ensures r.store == s
    ensures id in s.users <==> r.response.Ok?
    ensures id in s.users ==> r.response == Ok(UserDoc(id, s.users[id]))
    ensures id !in s.users ==> r.response == Fail(404, MsgUserNotFound)
  {
    if id in s.users then Step(s, Ok(UserDoc(id, s.users[id])))
    else Step(s, Fail(404, MsgUserNotFound))
  }

  /** PUT /:id */
  function UpdateUser(s: Store, id: UserId, body: AdminUpdate): (r: Step)
    requires Valid(s)
    ensures Valid(r.store)
    ensures id !in s.users ==> r == Step(s, Fail(404, MsgUserNotFound))
    ensures id in s.users ==>
      && OthersUnchanged(s, r.store, id)
      && var before, after := s.users[id], r.store.users[id];
      && (Supplied(body.name) ==> after.name == body.name.value)
      && (!Supplied(body.name) ==> after.name == before.name)
      && (Supplied(body.email) ==> after.email == body.email.value)
      && (!Supplied(body.email) ==> after.email == before.email)
      && (after.isAdmin <==> ToBoolean(body.isAdmin))
      && after.passwordHash == before.passwordHash
      && after.resetToken == before.resetToken
      && after.resetExpires == before.resetExpires
      && r.response == Ok(UserUpdated(MsgUserUpdated, id, after))
  {
    if id in s.users then
      var u := s.users[id];
      var u' := u.(name := OrElse(body.name, u.name),
                   email := OrElse(body.email, u.email),
                   isAdmin := ToBoolean(body.isAdmin));
      Step(Put(s, id, u'), Ok(UserUpdated(MsgUserUpdated, id, u')))
    else
      Step(s, Fail(404, MsgUserNotFound))
  }

  /** DELETE /:id */
  function DeleteUser(s: Store, id: UserId): (r: Step)
    requires Valid(s)
    ensures Valid(r.store)
    ensures id !in s.users ==> r == Step(s, Fail(404, MsgUserNotFound))
    ensures id in s.users && s.users[id].email == ProtectedEmail ==> r == Step(s, Fail(400, MsgCannotDeleteAdmin))
    ensures id in s.users && s.users[id].email != ProtectedEmail ==>
      && r.response == Ok(Message(MsgUserDeleted))
      && r.store.users.Keys == s.users.Keys - {id}
    ensures forall other :: other in r.store.users ==> other in s.users && r.store.users[other] == s.users[other]
    ensures forall other :: other in s.users && s.users[other].email == ProtectedEmail ==> other in r.store.users
  {
    if id in s.users then
      if s.users[id].email == ProtectedEmail then Step(s, Fail(400, MsgCannotDeleteAdmin))
      else Step(Remove(s, id), Ok(Message(MsgUserDeleted)))
    else
      Step(s, Fail(404, MsgUserNotFound))
  }

  /** POST /signin */
  function Signin(s: Store, c: Services, email: string, password: string): (r: Step)
    requires Valid(s)
    ensures r.store == s
    ensures r.response.Fail? ==> r.response == Fail(401, MsgInvalidCredentials)
    ensures r.response.Ok? ==>
      exists id :: id in s.users && s.users[id].email == email
        && c.bcryptCompare(password, s.users[id].passwordHash)
        && r.response.body == IdentityOf(c, id, s.users[id])
    ensures (forall id :: id in s.users && s.users[id].email == email ==>
               !c.bcryptCompare(password, s.users[id].passwordHash))
            ==> r.response.Fail?
  {
    match FindOne(s, ByEmail(email))
    case Some(id) =>
      if c.bcryptCompare(password, s.users[id].passwordHash) then Step(s, Ok(IdentityOf(c, id, s.users[id])))
      else Step(s, Fail(401, MsgInvalidCredentials))
    case None => Step(s, Fail(401, MsgInvalidCredentials))
  }

  /** POST /signup. `newId` is the id the database gives the new document. */
  function Signup(s: Store, c: Services, newId: UserId, name: string, email: string, password: string): (r: Step)
    requires Valid(s) && newId !in s.users
    ensures Valid(r.store)
    ensures r.store.users.Keys == s.users.Keys + {newId}
    ensures forall id :: id in s.users ==> r.store.users[id] == s.users[id]
    ensures r.store.users[newId] == User(name, email, c.bcryptHash(password), false, None, None)
    ensures r.response == Ok(Identity(newId, name, email, false, c.generateToken(newId, r.store.users[newId])))
  {
    var u := User(name, email, c.bcryptHash(password), false, None, None);
    Step(Insert(s, newId, u), Ok(IdentityOf(c, newId, u)))
  }

  /** POST /forgotpassword. `issue` is what `createPasswordResetToken` returns and stores;
      `delivered` is whether `sendEmail` completed. */
  function ForgotPassword(s: Store, email: string, issue: ResetIssue, delivered: bool): (r: Step)
    requires Valid(s)
    ensures Valid(r.store)
    ensures (forall id :: id in s.users ==> s.users[id].email != email) <==> r.response == Fail(401, MsgNoSuchEmail)
    ensures r.response == Fail(401, MsgNoSuchEmail) ==> r.store == s
    ensures r.response != Fail(401, MsgNoSuchEmail) ==>
      exists id :: id in s.users && s.users[id].email == email && OthersUnchanged(s, r.store, id)
        && r.store.users[id] == s.users[id].(resetToken := r.store.users[id].resetToken,
                                             resetExpires := r.store.users[id].resetExpires)
        && (delivered ==> r.response == Ok(Success(MsgTokenSent))
                          && r.store.users[id].resetToken == Some(issue.digest)
                          && r.store.users[id].resetExpires == Some(issue.expires))
        && (!delivered ==> r.response == Fail(500, MsgEmailFailed)
                           && r.store.users[id].resetToken.None?
                           && r.store.users[id].resetExpires.None?)
  {
    match FindOne(s, ByEmail(email))
    case None => Step(s, Fail(401, MsgNoSuchEmail))
    case Some(id) =>
      var u := s.users[id];
      var issued := Put(s, id, u.(resetToken := Some(issue.digest), resetExpires := Some(issue.expires)));
      if delivered then
        Step(issued, Ok(Success(MsgTokenSent)))
      else
        Step(Put(issued, id, issued.users[id].(resetToken := None, resetExpires := None)), Fail(500, MsgEmailFailed))
  }

  /** A user after a successful reset: the new password hash, and no reset state. */
  function Consumed(u: User, newHash: Digest): User {
    u.(passwordHash := newHash, resetToken := None, resetExpires := None)
  }

  /** PATCH /resetpassword/:token at time `now`. */
  function ResetPassword(s: Store, c: Services, token: string, password: string, now: int): (r: Step)
    requires Valid(s)
    ensures Valid(r.store)
    ensures r.response.Ok? <==> exists id :: id in s.users && TokenLive(s.users[id], c.sha256(token), now)
    ensures r.response.Fail? ==> r == Step(s, Fail(400, MsgTokenInvalid))
    ensures r.response.Ok? ==>
      && r.response == Ok(Success(MsgPasswordChanged))
      && exists id :: id in s.users && TokenLive(s.users[id], c.sha256(token), now)
           && OthersUnchanged(s, r.store, id)
           && r.store.users[id] == Consumed(s.users[id], c.bcryptHash(password))
  {
    match FindOne(s, ByResetToken(c.sha256(token), now))
    case Some(id) =>
      Step(Put(s, id, Consumed(s.users[id], c.bcryptHash(password))), Ok(Success(MsgPasswordChanged)))
    case None =>
      Step(s, Fail(400, MsgTokenInvalid))
  }

  /** PUT /profile for the signed-in caller `callerId`. */
  function UpdateProfile(s: Store, c: Services, callerId: UserId, body: ProfileUpdate): (r: Step)
    requires Valid(s)
    ensures Valid(r.store)
    ensures callerId !in s.users ==> r == Step(s, Fail(404, MsgProfileNotFound))
    ensures callerId in s.users ==>
      && OthersUnchanged(s, r.store, callerId)
      && var before, after := s.users[callerId], r.store.users[callerId];
      && (Supplied(body.name) ==> after.name == body.name.value)
      && (!Supplied(body.name) ==> after.name == before.name)
      && (Supplied(body.email) ==> after.email == body.email.value)
      && (!Supplied(body.email) ==> after.email == before.email)
      && (Supplied(body.password) ==> after.passwordHash == c.bcryptHash(body.password.value))
      && (!Supplied(body.password) ==> after.passwordHash == before.passwordHash)
      && after.isAdmin == before.isAdmin
      && after.resetToken == before.resetToken
      && after.resetExpires == before.resetExpires
      && r.response == Ok(Identity(callerId, after.name, after.email, after.isAdmin, c.generateToken(callerId, after)))
  {
    if callerId in s.users then
      var u := s.users[callerId];
      var named := u.(name := OrElse(body.name, u.name), email := OrElse(body.email, u.email));
      var u' := if Supplied(body.password) then named.(passwordHash := c.bcryptHash(body.password.value)) else named;
      Step(Put(s, callerId, u'), Ok(IdentityOf(c, callerId, u')))
    else
      Step(s, Fail(404, MsgProfileNotFound))
  }

  /** One request to the router, with the inputs its handler takes from outside the store. */
  datatype Request =
    | List
    | Get(id: UserId)
    | Update(id: UserId, update: AdminUpdate)
    | Delete(id: UserId)
    | SignIn(email: string, password: string)
    | SignUp(newId: UserId, name: string, email: string, password: string)
    | Forgot(email: string, issue: ResetIssue, delivered: bool)
    | Reset(token: string, password: string, now: int)
    | Profile(callerId: UserId, profile: ProfileUpdate)

  /** Dispatches a request to its handler, as the route table does once `PUT /profile` is
      registered ahead of `PUT /:id` (see `Routing`). */
  function Handle(s: Store, c: Services, req: Request): (r: Step)
    requires Valid(s)
    requires req.SignUp? ==> req.newId !in s.users
    ensures Valid(r.store)
    ensures !req.Delete? ==> r.store.users.Keys >= s.users.Keys
    ensures (req.List? || req.Get? || req.SignIn?) ==> r.store == s
  {
    match req
    case List => ListUsers(s)
    case Get(id) => GetUser(s, id)
    case Update(id, body) => UpdateUser(s, id, body)
    case Delete(id) => DeleteUser(s, id)
    case SignIn(email, password) => Signin(s, c, email, password)
    case SignUp(newId, name, email, password) => Signup(s, c, newId, name, email, password)
    case Forgot(email, issue, delivered) => ForgotPassword(s, email, issue, delivered)
    case Reset(token, password, now) => ResetPassword(s, c, token, password, now)
    case Profile(callerId, body) => UpdateProfile(s, c, callerId, body)
  }
}
