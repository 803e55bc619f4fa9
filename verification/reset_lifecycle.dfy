/**
 The password-reset token lifecycle across several requests: a token is consumed once, a newer
 issue or a failed delivery revokes the older token, an expired token is refused, and an issued
 token that is used in time changes the password that sign-in then accepts.
 */
module ResetLifecycle {
  import opened Wrappers
  import opened UserStore
  import opened Collaborators
  import opened UserRoutes

  /** No two documents hold the same outstanding reset digest. Random tokens make this hold in
      practice; the model takes it as an invariant of the store. */
  ghost predicate DistinctResetTokens(s: Store) {
    forall a, b :: a in s.users && b in s.users && a != b && s.users[a].resetToken.Some? ==>
      s.users[a].resetToken != s.users[b].resetToken
  }

  /** No document holds digest `d`: what a freshly generated token's digest satisfies. */
  ghost predicate DigestUnused(s: Store, d: Digest) {
    forall id :: id in s.users ==> s.users[id].resetToken != Some(d)
  }

  /** `id` is the only document with its email. */
  ghost predicate EmailOnlyAt(s: Store, id: UserId) {
    && id in s.users
    && forall other :: other in s.users && other != id ==> s.users[other].email != s.users[id].email
  }

  /** The forgot-password handler changes no email and no natural order, so a second request for
      the same email reaches the same document. */
  lemma {:induction false} ForgotKeepsEmailLookup(s: Store, email: string, issue: ResetIssue, delivered: bool, e: string)
    requires Valid(s)
    ensures FindOne(ForgotPassword(s, email, issue, delivered).store, ByEmail(e)) == FindOne(s, ByEmail(e))
  {
    var s1 := ForgotPassword(s, email, issue, delivered).store;
    if s1 != s {
      var id :| id in s.users && s.users[id].email == email && OthersUnchanged(s, s1, id)
        && s1.users[id] == s.users[id].(resetToken := s1.users[id].resetToken, resetExpires := s1.users[id].resetExpires);
      FindInAgrees(s.order, s.users, s1.users, ByEmail(e));
    }
  }

  /** A consumed token cannot be consumed again, at any later time and with any password. */
  lemma {:induction false} ReplayFails(s: Store, c: Services, token: string, password: string, now: int,
                                       password': string, now': int)
    requires Valid(s) && DistinctResetTokens(s)
    requires ResetPassword(s, c, token, password, now).response.Ok?
    ensures var s1 := ResetPassword(s, c, token, password, now).store;
            ResetPassword(s1, c, token, password', now') == Step(s1, Fail(400, MsgTokenInvalid))
  {
    var d := c.sha256(token);
    var s1 := ResetPassword(s, c, token, password, now).store;
    var id :| id in s.users && TokenLive(s.users[id], d, now) && OthersUnchanged(s, s1, id)
      && s1.users[id] == Consumed(s.users[id], c.bcryptHash(password));
    forall other | other in s1.users ensures !TokenLive(s1.users[other], d, now') {
      if other != id {
        assert s1.users[other] == s.users[other];
      }
    }
  }

  /** A second forgot-password request for the same email revokes the first token, whether or
      not the second mail was delivered. */
  lemma {:induction false} ReissueRevokesEarlierToken(s: Store, c: Services, email: string,
                                                      first: ResetIssue, delivered1: bool,
                                                      second: ResetIssue, delivered2: bool,
                                                      password: string, now: int)
    requires Valid(s) && DigestUnused(s, first.digest) && IssueMatchesRaw(c, first)
    requires second.digest != first.digest
    ensures var s1 := ForgotPassword(s, email, first, delivered1).store;
            var s2 := ForgotPassword(s1, email, second, delivered2).store;
            ResetPassword(s2, c, first.raw, password, now).response.Fail?
  {
    var s1 := ForgotPassword(s, email, first, delivered1).store;
    var s2 := ForgotPassword(s1, email, second, delivered2).store;
    ForgotKeepsEmailLookup(s, email, first, delivered1, email);
    match FindOne(s, ByEmail(email))
    case None =>
      assert s2 == s;
    case Some(id) =>
      forall other | other in s2.users ensures s2.users[other].resetToken != Some(first.digest) {
        if other != id {
          assert s2.users[other] == s1.users[other] == s.users[other];
        }
      }
  }

  /** A token is refused once its expiry has been reached: the comparison is strict. */
  lemma {:induction false} ExpiredTokenRejected(s: Store, c: Services, email: string, issue: ResetIssue,
                                                delivered: bool, password: string, now: int)
    requires Valid(s) && DigestUnused(s, issue.digest) && IssueMatchesRaw(c, issue)
    requires now >= issue.expires
    ensures var s1 := ForgotPassword(s, email, issue, delivered).store;
            ResetPassword(s1, c, issue.raw, password, now).response.Fail?
  {
    var s1 := ForgotPassword(s, email, issue, delivered).store;
    match FindOne(s, ByEmail(email))
    case None =>
    case Some(id) =>
      forall other | other in s1.users ensures !TokenLive(s1.users[other], issue.digest, now) {
        if other != id {
          assert s1.users[other] == s.users[other];
        }
      }
  }

  /** A failed delivery clears the reset state, which also revokes a token issued earlier. */
  lemma {:induction false} FailedDeliveryRevokesEarlierToken(s: Store, c: Services, id: UserId, issue: ResetIssue,
                                                             raw: string, password: string, now: int)
    requires Valid(s) && DistinctResetTokens(s) && EmailOnlyAt(s, id)
    requires s.users[id].resetToken == Some(c.sha256(raw))
    ensures var s1 := ForgotPassword(s, s.users[id].email, issue, false).store;
            ResetPassword(s1, c, raw, password, now).response.Fail?
  {
    var s1 := ForgotPassword(s, s.users[id].email, issue, false).store;
    assert FindOne(s, ByEmail(s.users[id].email)) == Some(id);
    forall other | other in s1.users ensures s1.users[other].resetToken != Some(c.sha256(raw)) {
      if other != id {
        assert s1.users[other] == s.users[other];
      }
    }
  }

  /** A delivered forgot-password request for an email held by `id` alone leaves `id` the only
      holder of the issued digest, with every email as it was. */
  lemma {:induction false} DeliveredIssueHeldOnlyBy(s: Store, id: UserId, issue: ResetIssue)
    requires Valid(s) && EmailOnlyAt(s, id) && DigestUnused(s, issue.digest)
    ensures var s1 := ForgotPassword(s, s.users[id].email, issue, true).store;
            && Valid(s1) && EmailOnlyAt(s1, id) && s1.users[id].email == s.users[id].email
            && s1.users[id].passwordHash == s.users[id].passwordHash
            && s1.users[id].resetToken == Some(issue.digest) && s1.users[id].resetExpires == Some(issue.expires)
            && forall other :: other in s1.users && other != id ==> s1.users[other].resetToken != Some(issue.digest)
  {
    var s1 := ForgotPassword(s, s.users[id].email, issue, true).store;
    assert FindOne(s, ByEmail(s.users[id].email)) == Some(id);
    assert forall other :: other in s1.users && other != id ==> s1.users[other] == s.users[other];
  }

  /** A reset whose token only `id` holds, live, changes exactly `id`. */
  lemma {:induction false} ResetByOnlyHolder(s: Store, c: Services, id: UserId, token: string, password: string, now: int)
    requires Valid(s) && id in s.users && TokenLive(s.users[id], c.sha256(token), now)
    requires forall other :: other in s.users && other != id ==> s.users[other].resetToken != Some(c.sha256(token))
    ensures var r := ResetPassword(s, c, token, password, now);
            && r.response.Ok? && OthersUnchanged(s, r.store, id)
            && r.store.users[id] == Consumed(s.users[id], c.bcryptHash(password))
  {
    assert FindOne(s, ByResetToken(c.sha256(token), now)) == Some(id);
  }

  /** Forgot-password, then reset with the mailed token before it expires: the reset succeeds, and
      afterwards sign-in accepts the new password and refuses the old one. */
  lemma {:induction false} IssuedTokenChangesPassword(s: Store, c: Services, id: UserId, issue: ResetIssue,
                                                      oldPassword: string, newPassword: string, now: int)
    requires Valid(s) && EmailOnlyAt(s, id)
    requires DigestUnused(s, issue.digest) && IssueMatchesRaw(c, issue)
    requires now < issue.expires
    ensures var email := s.users[id].email;
            var s1 := ForgotPassword(s, email, issue, true).store;
            var r := ResetPassword(s1, c, issue.raw, newPassword, now);
            && r.response.Ok?
            && id in r.store.users && r.store.users[id].passwordHash == c.bcryptHash(newPassword)
            && (CompareAcceptsOwnHash(c) ==> Signin(r.store, c, email, newPassword).response.Ok?)
            && (CompareBindsHash(c) && oldPassword != newPassword ==> Signin(r.store, c, email, oldPassword).response.Fail?)
  {
    var email := s.users[id].email;
    var s1 := ForgotPassword(s, email, issue, true).store;
    DeliveredIssueHeldOnlyBy(s, id, issue);
    ResetByOnlyHolder(s1, c, id, issue.raw, newPassword, now);
    var s2 := ResetPassword(s1, c, issue.raw, newPassword, now).store;
    assert EmailOnlyAt(s2, id) && s2.users[id].email == email;
    assert FindOne(s2, ByEmail(email)) == Some(id);
  }
}
