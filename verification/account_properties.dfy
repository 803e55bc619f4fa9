/**
 Properties of sign-in, sign-up, the admin handlers and the router as a whole: the single
 sign-in error, sign-up followed by sign-in, the protected account, the admin-update fall-back
 rules, and the store invariants every request keeps.
 */
module AccountProperties {
  import opened Wrappers
  import opened UserStore
  import opened Collaborators
  import opened UserRoutes
  import opened ResetLifecycle

  ghost predicate EmailsUnique(s: Store) {
    forall a, b :: a in s.users && b in s.users && a != b ==> s.users[a].email != s.users[b].email
  }

  ghost predicate EmailUnused(s: Store, email: string) {
    forall id :: id in s.users ==> s.users[id].email != email
  }

  /** A document holds a reset digest exactly when it holds a reset expiry. */
  ghost predicate ResetStatePaired(s: Store) {
    forall id :: id in s.users ==> (s.users[id].resetToken.Some? <==> s.users[id].resetExpires.Some?)
  }

  ghost predicate Invariant(s: Store) {
    Valid(s) && ResetStatePaired(s) && DistinctResetTokens(s)
  }

  /** What the database and the token generator guarantee about a request's own inputs: a new
      document gets an unused id, and a freshly generated reset digest is held by nobody. */
  ghost predicate FreshInputs(s: Store, req: Request) {
    && (req.SignUp? ==> req.newId !in s.users)
    && (req.Forgot? ==> DigestUnused(s, req.issue.digest))
  }

  /** With unique emails, sign-in succeeds exactly when some account has that email and the
      password verifies against its hash. */
  lemma {:induction false} SigninSucceedsIffCredentialsMatch(s: Store, c: Services, email: string, password: string)
    requires Valid(s) && EmailsUnique(s)
    ensures Signin(s, c, email, password).response.Ok? <==>
      exists id :: id in s.users && s.users[id].email == email && c.bcryptCompare(password, s.users[id].passwordHash)
  {
    if exists id :: id in s.users && s.users[id].email == email && c.bcryptCompare(password, s.users[id].passwordHash) {
      var id :| id in s.users && s.users[id].email == email && c.bcryptCompare(password, s.users[id].passwordHash);
      assert FindOne(s, ByEmail(email)) == Some(id);
    }
  }

  /** An unknown email and a wrong password give one and the same answer. */
  lemma SigninFailuresIndistinguishable(s: Store, c: Services, unknown: string, anyPassword: string,
                                        id: UserId, wrongPassword: string)
    requires Valid(s) && EmailUnused(s, unknown) && EmailOnlyAt(s, id)
    requires !c.bcryptCompare(wrongPassword, s.users[id].passwordHash)
    ensures Signin(s, c, unknown, anyPassword) == Signin(s, c, s.users[id].email, wrongPassword)
              == Step(s, Fail(401, MsgInvalidCredentials))
  {
  }

  /** Forgot-password answers an unknown email differently from a known one: unlike sign-in, it
      tells whether an account exists. */
  lemma ForgotPasswordRevealsAccountExistence(s: Store, unknown: string, id: UserId, issue: ResetIssue, delivered: bool)
    requires Valid(s) && EmailUnused(s, unknown) && id in s.users
    ensures ForgotPassword(s, unknown, issue, delivered).response == Fail(401, MsgNoSuchEmail)
    ensures ForgotPassword(s, s.users[id].email, issue, delivered).response != Fail(401, MsgNoSuchEmail)
  {
  }

  /** A new account can sign in with the password it signed up with, as a non-admin. */
  lemma {:induction false} SignupThenSignin(s: Store, c: Services, newId: UserId, name: string, email: string, password: string)
    requires Valid(s) && newId !in s.users && EmailUnused(s, email)
    requires CompareAcceptsOwnHash(c)
    ensures var s1 := Signup(s, c, newId, name, email, password).store;
            Signin(s1, c, email, password) == Step(s1, Signup(s, c, newId, name, email, password).response)
    ensures Signup(s, c, newId, name, email, password).response.body.isAdmin == false
  {
    var s1 := Signup(s, c, newId, name, email, password).store;
    assert FindOne(s1, ByEmail(email)) == Some(newId);
  }

  /** The same admin update applied twice leaves the store as applying it once. */
  lemma {:induction false} UpdateUserIdempotent(s: Store, id: UserId, body: AdminUpdate)
    requires Valid(s)
    ensures var s1 := UpdateUser(s, id, body).store;
            UpdateUser(s1, id, body).store == s1
  {
    var s1 := UpdateUser(s, id, body).store;
    if id in s.users {
      assert s1.users[id := s1.users[id]] == s1.users;
    }
  }

  /** An admin update that does not mention `isAdmin` demotes the account, while name and email
      fall back to their stored values. */
  lemma AdminUpdateWithoutFlagDemotes(s: Store, id: UserId)
    requires Valid(s) && id in s.users
    ensures var s1 := UpdateUser(s, id, AdminUpdate(None, None, Undefined)).store;
            && s1.users[id] == s.users[id].(isAdmin := false)
  {
  }

  /** No single request removes an account whose email is the protected one. */
  lemma {:induction false} ProtectedAccountSurvivesEveryRequest(s: Store, c: Services, req: Request, id: UserId)
    requires Valid(s) && FreshInputs(s, req)
    requires id in s.users && s.users[id].email == ProtectedEmail
    ensures id in Handle(s, c, req).store.users
  {
    if req.Delete? {
      assert id in DeleteUser(s, req.id).store.users;
    }
  }

  /** The delete guard looks at the email only: once an admin update gives the protected
      account another non-empty email, a delete removes it. */
  lemma RenamedProtectedAccountCanBeDeleted(s: Store, id: UserId, name: Option<string>, email: string, flag: JsValue)
    requires Valid(s) && id in s.users && s.users[id].email == ProtectedEmail
    requires email != "" && email != ProtectedEmail
    ensures var s1 := UpdateUser(s, id, AdminUpdate(name, Some(email), flag)).store;
            var r := DeleteUser(s1, id);
            r.response == Ok(Message(MsgUserDeleted)) && id !in r.store.users
  {
  }

  /** A lookup by id answers with exactly the document the listing shows for that id. */
  lemma {:induction false} GetAgreesWithList(s: Store, id: UserId, u: User)
    requires Valid(s)
    ensures GetUser(s, id).response == Ok(UserDoc(id, u)) <==> (id, u) in ListUsers(s).response.body.users
  {
    var list := ListUsers(s).response.body.users;
    if id in s.users && s.users[id] == u {
      var i :| 0 <= i < |list| && list[i] == (id, s.users[id]);
    }
  }

  /** A store that differs from an invariant-keeping one in a single document keeps the
      invariants when that document's reset state stays paired and its digest, if any, is held
      by no other document. */
  lemma {:induction false} OneDocumentChangeKeepsInvariant(s: Store, s': Store, id: UserId)
    requires Invariant(s) && Valid(s') && OthersUnchanged(s, s', id) && id in s'.users
    requires s'.users[id].resetToken.Some? <==> s'.users[id].resetExpires.Some?
    requires s'.users[id].resetToken.Some? ==>
      forall other :: other in s.users && other != id ==> s.users[other].resetToken != s'.users[id].resetToken
    ensures Invariant(s')
  {
    assert forall other :: other in s'.users && other != id ==> s'.users[other] == s.users[other];
  }

  /** A store whose documents are some of an invariant-keeping store's documents keeps the
      invariants. */
  lemma {:induction false} FewerDocumentsKeepInvariant(s: Store, s': Store)
    requires Invariant(s) && Valid(s')
    requires forall other :: other in s'.users ==> other in s.users && s'.users[other] == s.users[other]
    ensures Invariant(s')
  {
  }

  /** Every request keeps the store invariants. */
  lemma {:induction false} HandlePreservesInvariant(s: Store, c: Services, req: Request)
    requires Invariant(s) && FreshInputs(s, req)
    ensures Invariant(Handle(s, c, req).store)
  {
    var s' := Handle(s, c, req).store;
    match req
    case List =>
    case Get(_) =>
    case SignIn(_, _) =>
    case Update(id, body) =>
      if id in s.users {
        OneDocumentChangeKeepsInvariant(s, s', id);
      }
    case Profile(id, body) =>
      if id in s.users {
        OneDocumentChangeKeepsInvariant(s, s', id);
      }
    case Delete(id) =>
      FewerDocumentsKeepInvariant(s, s');
    case SignUp(newId, name, email, password) =>
      assert forall other :: other in s'.users && other != newId ==> other in s.users && s'.users[other] == s.users[other];
    case Forgot(email, issue, delivered) =>
      if FindOne(s, ByEmail(email)).Some? {
        OneDocumentChangeKeepsInvariant(s, s', FindOne(s, ByEmail(email)).value);
      }
    case Reset(token, password, now) =>
      if FindOne(s, ByResetToken(c.sha256(token), now)).Some? {
        OneDocumentChangeKeepsInvariant(s, s', FindOne(s, ByResetToken(c.sha256(token), now)).value);
      }
  }
}
