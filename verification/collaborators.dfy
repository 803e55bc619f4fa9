/**
 The code the route handlers call but that is not part of this model: bcrypt, sha256, the
 bearer-token signer and the reset-token generator of the user model. Each is an uninterpreted
 function or an input; the only facts assumed about them are the predicates below, and only
 where a lemma names them.
 */
module Collaborators {
  import opened UserStore

  datatype Services = Services(
    bcryptHash: string -> Digest,
    bcryptCompare: (string, Digest) -> bool,
    sha256: string -> Digest,
    generateToken: (UserId, User) -> string)

  /** A password is accepted against its own hash. */
  ghost predicate CompareAcceptsOwnHash(c: Services) {
    forall p :: c.bcryptCompare(p, c.bcryptHash(p))
  }

  /** A hash accepts no password other than the one it was made from. */
  ghost predicate CompareBindsHash(c: Services) {
    forall p, q :: c.bcryptCompare(p, c.bcryptHash(q)) ==> p == q
  }

  /** What `createPasswordResetToken` produces: the raw token mailed to the user, the digest
      stored in the document, and the expiry stored beside it. */
  datatype ResetIssue = ResetIssue(raw: string, digest: Digest, expires: int)

  /** The issue is consistent with the reset handler's own hashing. */
  predicate IssueMatchesRaw(c: Services, issue: ResetIssue) {
    issue.digest == c.sha256(issue.raw)
  }
}
