/** The request guards: `requireAuth` and `optionalAuth` look the session's
    user up and attach it to the request, and `requireRole` decides from the
    attached user's role. The session lookup itself is a parameter. */
module Auth {
  import opened Domain

  /** What the session lookup yields: no session, a session naming a user,
      or a lookup that throws. */
  datatype Session = NoSession | SessionFor(userId: Id) | LookupFailed

  /** The user fields the guards attach to the request. */
  datatype AuthUser = AuthUser(id: Id, role: Role, status: UserStatus)

  /** A guard either calls `next` or answers with a status code. */
  datatype Verdict = Next | Reject(code: nat)

  /** The request object; `user` is what a guard attached. */
  class Request {
    var user: Option<AuthUser>

    constructor ()
      ensures user.None?
    {
      user := None;
    }
  }

  function Attach(id: Id, u: User): AuthUser {
    AuthUser(id, u.role, u.status)
  }

  /** The verdict of `requireAuth`: 401 without a session, for a user that
      no longer exists, or when the lookup throws; 403 for a suspended user;
      otherwise `next`. */
  function AuthVerdict(users: map<Id, User>, session: Session): (v: Verdict)
    ensures v == Next <==> session.SessionFor? && session.userId in users && users[session.userId].status == Active
    ensures v.Reject? ==> v.code in {401, 403}
    ensures v == Reject(403) <==>
      session.SessionFor? && session.userId in users && users[session.userId].status == Suspended
  {
    if !session.SessionFor? || session.userId !in users then Reject(401)
    else if users[session.userId].status.Suspended? then Reject(403)
    else Next
  }

  /** `requireAuth`: on `next` the session's user is attached; on a
      rejection the request is left as it was. */
  method RequireAuth(req: Request, users: map<Id, User>, session: Session) returns (v: Verdict)
    modifies req
    ensures v == AuthVerdict(users, session)
    ensures v == Next ==> req.user == Some(Attach(session.userId, users[session.userId]))
    ensures v != Next ==> req.user == old(req.user)
  {
    v := AuthVerdict(users, session);
    if v == Next {
      req.user := Some(Attach(session.userId, users[session.userId]));
    }
  }

  /** The user `optionalAuth` attaches, if any: the session's user when it
      exists and is active. */
  function OptionalUser(users: map<Id, User>, session: Session): (r: Option<AuthUser>)
    ensures r.Some? ==> r.value.status == Active
  {
    match session
    case SessionFor(id) =>
      if id in users && users[id].status == Active then Some(Attach(id, users[id])) else None
    case _ => None
  }

  /** `optionalAuth`: attaches an active user when there is one, and always
      calls `next`. */
  method OptionalAuth(req: Request, users: map<Id, User>, session: Session) returns (v: Verdict)
    modifies req
    ensures v == Next
    ensures OptionalUser(users, session).Some? ==> req.user == OptionalUser(users, session)
    ensures OptionalUser(users, session).None? ==> req.user == old(req.user)
  {
    var u := OptionalUser(users, session);
    if u.Some? {
      req.user := u;
    }
    v := Next;
  }

  /** The two lookups agree: `optionalAuth` attaches a user exactly when
      `requireAuth` would let the request through, and the same user. */
  lemma OptionalAgreesWithRequired(users: map<Id, User>, session: Session)
    ensures OptionalUser(users, session).Some? <==> AuthVerdict(users, session) == Next
    ensures AuthVerdict(users, session) == Next ==>
      OptionalUser(users, session) == Some(Attach(session.userId, users[session.userId]))
  {
  }

  /** `requireRole(...roles)`: 401 when no user is attached, 403 when the
      attached user's role is not listed, else `next`. */
  function RoleVerdict(user: Option<AuthUser>, roles: seq<Role>): (v: Verdict)
    ensures user.None? ==> v == Reject(401)
    ensures user.Some? ==> (v == Next <==> user.value.role in roles)
    ensures user.Some? && user.value.role !in roles ==> v == Reject(403)
  {
    if user.None? then Reject(401)
    else if user.value.role !in roles then Reject(403)
    else Next
  }

  function RequireAdmin(user: Option<AuthUser>): Verdict { RoleVerdict(user, [Admin]) }

  function RequireProvider(user: Option<AuthUser>): Verdict { RoleVerdict(user, [Provider, Admin]) }

  function RequireCustomer(user: Option<AuthUser>): Verdict { RoleVerdict(user, [Customer, Admin]) }

  /** The three fixed guards: only admins pass `requireAdmin`, providers and
      admins pass `requireProvider`, customers and admins pass
      `requireCustomer`. */
  lemma FixedGuards(user: Option<AuthUser>)
    ensures RequireAdmin(user) == Next <==> user.Some? && user.value.role == Admin
    ensures RequireProvider(user) == Next <==> user.Some? && user.value.role in {Provider, Admin}
    ensures RequireCustomer(user) == Next <==> user.Some? && user.value.role in {Customer, Admin}
    ensures user.Some? && user.value.role == Admin ==>
      RequireAdmin(user) == Next && RequireProvider(user) == Next && RequireCustomer(user) == Next
  {
  }

  /** Behind `requireAuth`, a role guard never answers 401, and the user it
      judges is active: a rejection there can only be 403. */
  method RequireAuthThenRole(req: Request, users: map<Id, User>, session: Session, roles: seq<Role>)
    returns (v: Verdict)
    modifies req
    ensures AuthVerdict(users, session) != Next ==> v == AuthVerdict(users, session)
    ensures AuthVerdict(users, session) == Next ==>
      var u := users[session.userId];
      && req.user == Some(Attach(session.userId, u))
      && req.user.value.status == Active
      && (v == Next <==> u.role in roles)
      && (v != Next ==> v == Reject(403))
  {
    v := RequireAuth(req, users, session);
    if v == Next {
      v := RoleVerdict(req.user, roles);
    }
  }
}
