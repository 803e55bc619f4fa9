/**
 The router's route table and Express's first-match dispatch. Express tries routes in the order
 they were registered, and a `:param` segment matches any one non-empty path segment.
 */
module Routing {
  import opened Wrappers

  datatype Verb = GET | POST | PUT | DELETE | PATCH

  datatype Segment = Lit(text: string) | Param

  datatype Handler = ListUsersH | GetUserH | UpdateUserH | DeleteUserH | SigninH | SignupH
                   | ForgotPasswordH | ResetPasswordH | UpdateProfileH

  datatype Route = Route(verb: Verb, pattern: seq<Segment>, handler: Handler)

  predicate SegmentMatches(p: Segment, seg: string) {
    match p
    case Lit(t) => seg == t
    case Param => seg != ""
  }

  predicate PathMatches(pattern: seq<Segment>, path: seq<string>) {
    |pattern| == |path| && forall k :: 0 <= k < |path| ==> SegmentMatches(pattern[k], path[k])
  }

  predicate RouteMatches(r: Route, m: Verb, path: seq<string>) {
    r.verb == m && PathMatches(r.pattern, path)
  }

  /** The handler of the first registered route that matches. */
  function Dispatch(routes: seq<Route>, m: Verb, path: seq<string>): (r: Option<Handler>)
    ensures r.Some? ==> exists i :: 0 <= i < |routes| && RouteMatches(routes[i], m, path)
                                    && routes[i].handler == r.value
                                    && forall j :: 0 <= j < i ==> !RouteMatches(routes[j], m, path)
    ensures r.None? <==> forall i :: 0 <= i < |routes| ==> !(RouteMatches(routes[i], m, path))
  {
    if |routes| == 0 then None
    else if RouteMatches(routes[0], m, path) then Some(routes[0].handler)
    else
      var r := Dispatch(routes[1..], m, path);
      assert forall i :: 1 <= i < |routes| ==> routes[i] == routes[1..][i - 1];
      assert r.Some? ==> exists i :: 0 <= i < |routes| && RouteMatches(routes[i], m, path)
                                    && routes[i].handler == r.value
                                    && forall j :: 0 <= j < i ==> !RouteMatches(routes[j], m, path) by {
        if r.Some? {
          var i :| 0 <= i < |routes[1..]| && RouteMatches(routes[1..][i], m, path)
                   && routes[1..][i].handler == r.value
                   && forall j :: 0 <= j < i ==> !RouteMatches(routes[1..][j], m, path);
          assert routes[i + 1] == routes[1..][i];
        }
      }
      r
  }

  /** Dispatch picks route `i` when it matches and no earlier route does. */
  lemma {:induction false} DispatchPicks(routes: seq<Route>, m: Verb, path: seq<string>, i: nat)
    requires i < |routes| && RouteMatches(routes[i], m, path)
    requires forall k :: 0 <= k < i ==> !RouteMatches(routes[k], m, path)
    ensures Dispatch(routes, m, path) == Some(routes[i].handler)
  {
    var r := Dispatch(routes, m, path);
    var i' :| 0 <= i' < |routes| && RouteMatches(routes[i'], m, path)
              && routes[i'].handler == r.value
              && forall j :: 0 <= j < i' ==> !RouteMatches(routes[j], m, path);
  }

  /** Dispatch never reaches handler `h` if every route to `h` is preceded by a matching route or
      does not match. */
  lemma {:induction false} DispatchAvoids(routes: seq<Route>, m: Verb, path: seq<string>, h: Handler)
    requires forall k :: 0 <= k < |routes| && routes[k].handler == h && RouteMatches(routes[k], m, path) ==>
               exists j :: 0 <= j < k && RouteMatches(routes[j], m, path)
    ensures Dispatch(routes, m, path) != Some(h)
  {
  }

  /** The routes in the order the user router registers them. */
  const Registered: seq<Route> := [
    Route(GET, [], ListUsersH),
    Route(GET, [Param], GetUserH),
    Route(PUT, [Param], UpdateUserH),
    Route(DELETE, [Param], DeleteUserH),
    Route(POST, [Lit("signin")], SigninH),
    Route(POST, [Lit("signup")], SignupH),
    Route(POST, [Lit("forgotpassword")], ForgotPasswordH),
    Route(PATCH, [Lit("resetpassword"), Param], ResetPasswordH),
    Route(PUT, [Lit("profile")], UpdateProfileH)
  ]

  /** As registered, `PUT /profile` is taken by `PUT /:id` with id "profile": no request reaches
      the profile handler. */
  lemma {:induction false} ProfileUnreachableAsRegistered(m: Verb, path: seq<string>)
    ensures Dispatch(Registered, m, path) != Some(UpdateProfileH)
    ensures Dispatch(Registered, PUT, ["profile"]) == Some(UpdateUserH)
  {
    if RouteMatches(Registered[8], m, path) {
      assert RouteMatches(Registered[2], m, path);
    }
    DispatchAvoids(Registered, m, path, UpdateProfileH);
    DispatchPicks(Registered, PUT, ["profile"], 2);
  }

  /** The table with `PUT /profile` registered ahead of `PUT /:id`. */
  const Corrected: seq<Route> := [
    Route(GET, [], ListUsersH),
    Route(GET, [Param], GetUserH),
    Route(PUT, [Lit("profile")], UpdateProfileH),
    Route(PUT, [Param], UpdateUserH),
    Route(DELETE, [Param], DeleteUserH),
    Route(POST, [Lit("signin")], SigninH),
    Route(POST, [Lit("signup")], SignupH),
    Route(POST, [Lit("forgotpassword")], ForgotPasswordH),
    Route(PATCH, [Lit("resetpassword"), Param], ResetPasswordH)
  ]

  /** In the corrected table `PUT /profile` reaches the profile handler. */
  lemma {:induction false} CorrectedReachesProfile()
    ensures Dispatch(Corrected, PUT, ["profile"]) == Some(UpdateProfileH)
  {
    DispatchPicks(Corrected, PUT, ["profile"], 2);
  }

  /** In the corrected table `PUT` of any id other than "profile" still reaches the admin update. */
  lemma {:induction false} CorrectedKeepsAdminUpdate(id: string)
    requires id != "" && id != "profile"
    ensures Dispatch(Corrected, PUT, [id]) == Some(UpdateUserH)
  {
    assert !SegmentMatches(Lit("profile"), id);
    forall k | 0 <= k < 3 ensures !RouteMatches(Corrected[k], PUT, [id]) {
      if k == 2 { assert [id][0] == id; }
    }
    DispatchPicks(Corrected, PUT, [id], 3);
  }
}
