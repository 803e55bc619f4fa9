/**
 The user collection as the route handlers see it: a map from document id to user record,
 together with the collection's natural (insertion) order, which is the order in which
 `findOne` and `find({})` visit documents.
 */
module UserStore {
  import opened Wrappers

  type UserId = nat

  /** A digest as stored in a document: a bcrypt hash or a hex sha256 digest. */
  type Digest = string

  /** One user document. The password is only ever held as a bcrypt digest; the reset state is
      the sha256 digest of the outstanding reset token and its expiry in milliseconds. */
  datatype User = User(
    name: string,
    email: string,
    passwordHash: Digest,
    isAdmin: bool,
    resetToken: Option<Digest>,
    resetExpires: Option<int>)

  datatype Store = Store(users: map<UserId, User>, order: seq<UserId>)

  ghost predicate Distinct(xs: seq<UserId>) {
    forall i, j :: 0 <= i < j < |xs| ==> xs[i] != xs[j]
  }

  /** The natural order lists every stored id exactly once. */
  ghost predicate Valid(s: Store) {
    && Distinct(s.order)
    && (forall id :: id in s.users <==> id in s.order)
  }

  /** A reset token digest `d` is still usable at time `now`: it is the stored digest and the
      stored expiry lies strictly after `now` (a missing expiry never matches `$gt`). */
  predicate TokenLive(u: User, d: Digest, now: int) {
    u.resetToken == Some(d) && u.resetExpires.Some? && u.resetExpires.value > now
  }

  /** The two `findOne` filters the handlers issue. */
  datatype Query = ByEmail(email: string) | ByResetToken(digest: Digest, now: int)

  predicate Matches(q: Query, u: User) {
    match q
    case ByEmail(e) => u.email == e
    case ByResetToken(d, now) => TokenLive(u, d, now)
  }

  ghost predicate NoMatchBefore(order: seq<UserId>, users: map<UserId, User>, q: Query, k: int)
    requires 0 <= k <= |order|
  {
    forall j :: 0 <= j < k && order[j] in users ==> !Matches(q, users[order[j]])
  }

  /** The first id along `order` whose document matches `q`. */
  function FindIn(order: seq<UserId>, users: map<UserId, User>, q: Query): (r: Option<UserId>)
    ensures r.Some? ==> r.value in users && Matches(q, users[r.value])
    ensures r.Some? ==> exists k :: 0 <= k < |order| && order[k] == r.value && NoMatchBefore(order, users, q, k)
    ensures r.None? <==> forall i :: 0 <= i < |order| && order[i] in users ==> !Matches(q, users[order[i]])
  {
    if |order| == 0 then None
    else if order[0] in users && Matches(q, users[order[0]]) then
      assert NoMatchBefore(order, users, q, 0);
      Some(order[0])
    else
      var r := FindIn(order[1..], users, q);
      if r.Some? then
        assert exists k :: 0 <= k < |order| && order[k] == r.value && NoMatchBefore(order, users, q, k) by {
          var k :| 0 <= k < |order[1..]| && order[1..][k] == r.value && NoMatchBefore(order[1..], users, q, k);
          forall j | 0 <= j < k + 1 && order[j] in users
            ensures !Matches(q, users[order[j]])
          {
            if j > 0 { assert order[j] == order[1..][j - 1]; }
          }
          assert order[k + 1] == r.value && NoMatchBefore(order, users, q, k + 1);
        }
        r
      else
        assert forall i :: 1 <= i < |order| ==> order[i] == order[1..][i - 1];
        r
  }

  /** `findOne(q)`: some matching document exists exactly when an id is returned. */
  function FindOne(s: Store, q: Query): (r: Option<UserId>)
    requires Valid(s)
    ensures r.Some? ==> r.value in s.users && Matches(q, s.users[r.value])
    ensures r.None? <==> forall id :: id in s.users ==> !Matches(q, s.users[id])
  {
    var r := FindIn(s.order, s.users, q);
    assert r.None? ==> forall id :: id in s.users ==> !Matches(q, s.users[id]) by {
      if r.None? {
        forall id | id in s.users ensures !Matches(q, s.users[id]) {
          var i :| 0 <= i < |s.order| && s.order[i] == id;
        }
      }
    }
    r
  }

  /** `findOne` answers alike on two collections in the same order whose documents agree on the
      filter. */
  lemma {:induction false} FindInAgrees(order: seq<UserId>, users: map<UserId, User>, users': map<UserId, User>, q: Query)
    requires users.Keys == users'.Keys
    requires forall id :: id in users ==> (Matches(q, users[id]) <==> Matches(q, users'[id]))
    ensures FindIn(order, users', q) == FindIn(order, users, q)
    decreases |order|
  {
    if |order| > 0 {
      FindInAgrees(order[1..], users, users', q);
    }
  }

  /** Removes `x` from a natural order. */
  function Without(xs: seq<UserId>, x: UserId): (r: seq<UserId>)
    ensures forall y :: y in r <==> y in xs && y != x
    ensures Distinct(xs) ==> Distinct(r)
  {
    if |xs| == 0 then []
    else
      var rest := Without(xs[1..], x);
      assert Distinct(xs) ==> Distinct(xs[1..]) by {
        if Distinct(xs) {
          forall i, j | 0 <= i < j < |xs[1..]| ensures xs[1..][i] != xs[1..][j] {
            assert xs[1..][i] == xs[i + 1] && xs[1..][j] == xs[j + 1];
          }
        }
      }
      if xs[0] == x then rest
      else
        assert Distinct(xs) ==> xs[0] !in xs[1..];
        [xs[0]] + rest
  }

  /** Every other document, and the natural order, are left as they were. */
  ghost predicate OthersUnchanged(s: Store, s': Store, id: UserId) {
    && s'.order == s.order
    && s'.users.Keys == s.users.Keys
    && forall other :: other in s.users && other != id ==> s'.users[other] == s.users[other]
  }

  /** `save()` of an existing document. */
  function Put(s: Store, id: UserId, u: User): (r: Store)
    requires Valid(s) && id in s.users
    ensures Valid(r) && id in r.users && r.users[id] == u
    ensures OthersUnchanged(s, r, id)
  {
    Store(s.users[id := u], s.order)
  }

  /** `save()` of a new document under a fresh id: it goes last in natural order. */
  function Insert(s: Store, id: UserId, u: User): (r: Store)
    requires Valid(s) && id !in s.users
    ensures Valid(r) && r.users.Keys == s.users.Keys + {id} && r.users[id] == u
    ensures forall other :: other in s.users ==> r.users[other] == s.users[other]
    ensures r.order == s.order + [id]
  {
    Store(s.users[id := u], s.order + [id])
  }

  /** `remove()` of a document. */
  function Remove(s: Store, id: UserId): (r: Store)
    requires Valid(s)
    ensures Valid(r) && r.users.Keys == s.users.Keys - {id}
    ensures forall other :: other in r.users ==> r.users[other] == s.users[other]
  {
    Store(s.users - {id}, Without(s.order, id))
  }

  /** `find({})`: every document exactly once, in natural order. */
  function All(s: Store): (r: seq<(UserId, User)>)
    requires Valid(s)
    ensures forall i :: 0 <= i < |r| ==> r[i].0 in s.users && r[i].1 == s.users[r[i].0]
    ensures forall id :: id in s.users ==> exists i :: 0 <= i < |r| && r[i] == (id, s.users[id])
    ensures forall i, j :: 0 <= i < j < |r| ==> r[i].0 != r[j].0
  {
    var r := seq(|s.order|, i requires 0 <= i < |s.order| => (s.order[i], s.users[s.order[i]]));
    assert forall id :: id in s.users ==> exists i :: 0 <= i < |r| && r[i] == (id, s.users[id]) by {
      forall id | id in s.users ensures exists i :: 0 <= i < |r| && r[i] == (id, s.users[id]) {
        var i :| 0 <= i < |s.order| && s.order[i] == id;
        assert r[i] == (id, s.users[id]);
      }
    }
    r
  }
}
