/**
 * The route access-control decision taken for each request: from the
 * request path, the HTTP verb and the caller's session (fetched by the
 * application and given here as an input), either let the request through,
 * redirect it, or refuse it with status 403.
 */
module Middleware {
  import opened Wrappers
  import opened Text

  /** The part of a session the decision reads: the user's role, if any. */
  datatype Session = Session(role: Option<string>)

  datatype Decision = Next | Redirect(location: string) | Forbidden

  /** Pages only for callers who are not signed in. */
  const AuthRoutes: seq<string> := ["/sign-in", "/sign-up", "/email-verification", "/forgot-password", "/reset-password"]

  /** Pages open to everybody. */
  const PublicRoutes: seq<string> := ["/", "/privacy", "/terms"]

  const Dashboard := "/dashboard"
  const SignIn := "/sign-in"

  predicate IsModifying(verb: string) {
    verb == "POST" || verb == "PUT" || verb == "DELETE"
  }

  /** `session?.user?.role` when it is truthy: present and not the empty string. */
  function RoleOf(session: Option<Session>): (r: Option<string>)
    ensures r.Some? <==> session.Some? && session.value.role.Some? && session.value.role.value != ""
    ensures r.Some? ==> r == session.value.role
  {
    match session
    case None => None
    case Some(s) =>
      match s.role
      case None => None
      case Some(role) => if role == "" then None else Some(role)
  }

  /** The role checks, in the order the three role blocks run. */
  function RoleDecision(pathname: string, verb: string, role: string): Decision {
    if role == "admin" then Next
    // first block for the delivery role
    else if role == "delivery" && StartsWith(pathname, "/users") then Redirect(Dashboard)
    else if role == "delivery" && (StartsWith(pathname, "/api/products") || StartsWith(pathname, "/api/shipments"))
      && IsModifying(verb) then Forbidden
    // block for the cashier role
    else if role == "cashier" && StartsWith(pathname, "/users") then Redirect(Dashboard)
    else if role == "cashier" && StartsWith(pathname, "/api/shipments") then Forbidden
    else if role == "cashier" && StartsWith(pathname, "/api/products") && IsModifying(verb) then Forbidden
    // second block for the delivery role
    else if role == "delivery" && StartsWith(pathname, "/users") then Redirect(Dashboard)
    else if role == "delivery" && StartsWith(pathname, "/api/sales") then Forbidden
    else if role == "delivery" && StartsWith(pathname, "/api/products") && IsModifying(verb) then Forbidden
    else if role == "delivery" && StartsWith(pathname, "/api/shipments") && (verb == "POST" || verb == "DELETE") then Forbidden
    else Next
  }

  /**
   * The middleware's decision: public pages pass; a signed-in caller on an
   * authentication page goes to the dashboard; a caller without a session
   * goes to sign-in unless on an authentication page; a caller with a role
   * is checked against the role rules; everybody else passes.
   */
  function Decide(pathname: string, verb: string, session: Option<Session>): (d: Decision)
    ensures d.Redirect? ==> d.location == Dashboard || d.location == SignIn
    ensures d.Forbidden? ==> RoleOf(session) == Some("delivery") || RoleOf(session) == Some("cashier")
  {
    if pathname in PublicRoutes then Next
    else if session.Some? && pathname in AuthRoutes then Redirect(Dashboard)
    else if session.None? && pathname !in AuthRoutes && pathname !in PublicRoutes then Redirect(SignIn)
    else
      match RoleOf(session)
      case None => Next
      case Some(role) => RoleDecision(pathname, verb, role)
  }

  /** "/", "/privacy" and "/terms" pass whatever the session. */
  lemma PublicRoutesPass(pathname: string, verb: string, session: Option<Session>)
    requires pathname in PublicRoutes
    ensures Decide(pathname, verb, session) == Next
  {
  }

  /** A signed-in caller on any authentication page is sent to the dashboard. */
  lemma SignedInAuthRouteRedirects(pathname: string, verb: string, session: Option<Session>)
    requires session.Some? && pathname in AuthRoutes
    ensures Decide(pathname, verb, session) == Redirect("/dashboard")
  {
  }

  /**
   * Without a session, authentication pages pass and every other
   * non-public path is sent to sign-in.
   */
  lemma SignedOutDecision(pathname: string, verb: string)
    requires pathname !in PublicRoutes
    ensures pathname in AuthRoutes ==> Decide(pathname, verb, None) == Next
    ensures pathname !in AuthRoutes ==> Decide(pathname, verb, None) == Redirect("/sign-in")
  {
  }

  /** Past the session checks, an admin passes everywhere. */
  lemma AdminPasses(pathname: string, verb: string, session: Option<Session>)
    requires RoleOf(session) == Some("admin")
    requires pathname !in AuthRoutes
    ensures Decide(pathname, verb, session) == Next
  {
  }

  /**
   * A delivery user is sent away from user management, refused every
   * modifying verb on products and shipments (PUT on shipments
   * included) and every verb on sales.
   */
  lemma DeliveryRestrictions(pathname: string, verb: string, session: Option<Session>)
    requires RoleOf(session) == Some("delivery")
    requires pathname !in AuthRoutes && pathname !in PublicRoutes
    ensures StartsWith(pathname, "/users") ==> Decide(pathname, verb, session) == Redirect("/dashboard")
    ensures !StartsWith(pathname, "/users") && IsModifying(verb)
            && (StartsWith(pathname, "/api/products") || StartsWith(pathname, "/api/shipments"))
            ==> Decide(pathname, verb, session) == Forbidden
    ensures !StartsWith(pathname, "/users") && StartsWith(pathname, "/api/sales")
            ==> Decide(pathname, verb, session) == Forbidden
  {
  }

  /**
   * A cashier is sent away from user management, refused every verb on
   * shipments and every modifying verb on products, and may read products.
   */
  lemma CashierRestrictions(pathname: string, verb: string, session: Option<Session>)
    requires RoleOf(session) == Some("cashier")
    requires pathname !in AuthRoutes && pathname !in PublicRoutes
    ensures StartsWith(pathname, "/users") ==> Decide(pathname, verb, session) == Redirect("/dashboard")
    ensures !StartsWith(pathname, "/users") && StartsWith(pathname, "/api/shipments")
            ==> Decide(pathname, verb, session) == Forbidden
    ensures !StartsWith(pathname, "/users") && !StartsWith(pathname, "/api/shipments")
            && StartsWith(pathname, "/api/products")
            ==> (Decide(pathname, verb, session) == Forbidden <==> IsModifying(verb))
    ensures !StartsWith(pathname, "/users") && !StartsWith(pathname, "/api/shipments")
            && StartsWith(pathname, "/api/products") && verb == "GET"
            ==> Decide(pathname, verb, session) == Next
  {
  }

  /** A session without a role, or with a role other than the three checked, passes. */
  lemma UncheckedRolesPass(pathname: string, verb: string, session: Option<Session>)
    requires session.Some? && pathname !in AuthRoutes
    requires RoleOf(session).None? || RoleOf(session).value !in {"admin", "delivery", "cashier"}
    ensures Decide(pathname, verb, session) == Next
  {
  }

  /**
   * The access policy stated role by role. For the delivery role it has
   * three rules: the second delivery block of the middleware adds only the
   * sales rule, since its other checks repeat the first block's.
   */
  function Policy(pathname: string, verb: string, session: Option<Session>): Decision {
    if pathname in PublicRoutes then Next
    else if pathname in AuthRoutes then (if session.Some? then Redirect(Dashboard) else Next)
    else if session.None? then Redirect(SignIn)
    else
      var role := RoleOf(session);
      var users := StartsWith(pathname, "/users");
      var products := StartsWith(pathname, "/api/products");
      var shipments := StartsWith(pathname, "/api/shipments");
      var sales := StartsWith(pathname, "/api/sales");
      if role == Some("delivery") then
        if users then Redirect(Dashboard)
        else if (products || shipments) && IsModifying(verb) then Forbidden
        else if sales then Forbidden
        else Next
      else if role == Some("cashier") then
        if users then Redirect(Dashboard)
        else if shipments then Forbidden
        else if products && IsModifying(verb) then Forbidden
        else Next
      else Next
  }

  /** The middleware as written takes exactly the decisions of the role-by-role policy. */
  lemma DecideMatchesPolicy(pathname: string, verb: string, session: Option<Session>)
    ensures Decide(pathname, verb, session) == Policy(pathname, verb, session)
  {
  }
}
