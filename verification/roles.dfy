/** The role gate in front of the dashboards (`RoleBasedDashboard` in App.js):
    read the user's Cognito groups and choose the admin dashboard, the user
    dashboard or an access-denied page. */
module Roles {
  import opened Optional
  import JsArray

  const AdminGroup: string := "Admins"
  const UserGroup: string := "Users"

  datatype Role = Admin | User | Denied

  /** The slice of the signed-in user object the gate reads. Every level may be
      absent; `cognitoGroups` is the `'cognito:groups'` claim of the payload. */
  datatype Payload = Payload(cognitoGroups: Option<seq<string>>)
  datatype AccessToken = AccessToken(payload: Option<Payload>)
  datatype SignInUserSession = SignInUserSession(accessToken: Option<AccessToken>)
  datatype AuthUser = AuthUser(signInUserSession: Option<SignInUserSession>)

  /** The group list the gate sees, or the TypeError thrown when an access token
      is present but has no payload: the chain
      `user?.signInUserSession?.accessToken?.payload['cognito:groups']` guards
      the first three steps with `?.` but indexes `payload` unguarded. */
  datatype GroupsLookup = Groups(names: seq<string>) | PayloadTypeError

  /** What the gate renders. */
  datatype View = Shows(role: Role) | RenderError

  /** The optional chain with `|| []`: an absent step or claim yields `[]`. */
  function GroupsOf(user: Option<AuthUser>): GroupsLookup
  {
    match user
    case None => Groups([])
    case Some(u) =>
      match u.signInUserSession
      case None => Groups([])
      case Some(session) =>
        match session.accessToken
        case None => Groups([])
        case Some(token) =>
          match token.payload
          case None => PayloadTypeError
          case Some(payload) =>
            match payload.cognitoGroups
            case None => Groups([])
            case Some(names) => Groups(names)
  }

  /** The decision itself: the first matching branch wins, so "Admins" takes
      priority over "Users", and anything else is denied. */
  function Resolve(groups: seq<string>): (r: Role)
    ensures r == Admin <==> AdminGroup in groups
    ensures r == User <==> UserGroup in groups && AdminGroup !in groups
    ensures r == Denied <==> AdminGroup !in groups && UserGroup !in groups
  {
    if JsArray.Includes(groups, AdminGroup) then Admin
    else if JsArray.Includes(groups, UserGroup) then User
    else Denied
  }

  /** The chain is broken at a `?.` step or the claim itself is missing. */
  predicate ClaimMissing(user: Option<AuthUser>)
  {
    || user.None?
    || user.value.signInUserSession.None?
    || user.value.signInUserSession.value.accessToken.None?
    || (user.value.signInUserSession.value.accessToken.value.payload.Some?
        && user.value.signInUserSession.value.accessToken.value.payload.value.cognitoGroups.None?)
  }

  /** An access token is present but has no payload to index. */
  predicate PayloadAbsent(user: Option<AuthUser>)
  {
    && user.Some? && user.value.signInUserSession.Some?
    && user.value.signInUserSession.value.accessToken.Some?
    && user.value.signInUserSession.value.accessToken.value.payload.None?
  }

  /** A missing groups claim anywhere along the optional chain counts as no
      groups, so access is denied; only a token without a payload fails to
      render; a present claim is decided by `Resolve`. */
  function RoleBasedDashboard(user: Option<AuthUser>): (v: View)
    ensures ClaimMissing(user) ==> v == Shows(Denied)
    ensures v == RenderError <==> PayloadAbsent(user)
    ensures forall names: seq<string> ::
      user == Some(AuthUser(Some(SignInUserSession(Some(AccessToken(Some(Payload(Some(names)))))))))
      ==> v == Shows(Resolve(names))
  {
    match GroupsOf(user)
    case PayloadTypeError => RenderError
    case Groups(names) => Shows(Resolve(names))
  }

  /** Only membership matters: order, duplicates and unrelated groups do not
      change the decision. */
  lemma ResolveDependsOnlyOnMembership(g1: seq<string>, g2: seq<string>)
    requires AdminGroup in g1 <==> AdminGroup in g2
    requires UserGroup in g1 <==> UserGroup in g2
    ensures Resolve(g1) == Resolve(g2)
  {
  }

  /** Admin wins whatever else is present, in particular over "Users". */
  lemma AdminHasPriority(before: seq<string>, after: seq<string>)
    ensures Resolve(before + [AdminGroup] + after) == Admin
  {
    assert (before + [AdminGroup] + after)[|before|] == AdminGroup;
  }

}
