/** The access guard: `protect` authenticates the bearer token and attaches the
    account, and the role checks that may follow it. */
module AuthMiddleware {
  import opened Common
  import opened Approval
  import opened Listing
  import opened Crypto
  import opened UserModel
  import opened Http

  const BearerPrefix: string := "Bearer "

  /** The text of `s` up to its first space. */
  function FirstField(s: string): (f: string)
    ensures f <= s && ' ' !in f
    ensures |f| < |s| ==> s[|f|] == ' '
  {
    if s == [] || s[0] == ' ' then [] else [s[0]] + FirstField(s[1..])
  }

  /** A text holding no space is its own first field. */
  lemma {:induction false} FirstFieldOfWord(s: string)
    requires ' ' !in s
    ensures FirstField(s) == s
  {
    if s != [] {
      assert ' ' !in s[1..];
      FirstFieldOfWord(s[1..]);
    }
  }

  /** The token of an `Authorization` header: none when the header is absent or
      does not start with "Bearer ", else `header.split(' ')[1]`, the field
      after the first space. */
  function BearerToken(header: Option<string>): (t: Option<string>)
    ensures t.None? <==> header.None? || !(BearerPrefix <= header.value)
    ensures t.Some? ==> t.value == FirstField(header.value[|BearerPrefix|..])
  {
    if header.Some? && BearerPrefix <= header.value then
      Some(FirstField(header.value[|BearerPrefix|..]))
    else
      None
  }

  /** The result of `protect`: the attached account and a call of `next`, or a
      401 answer and no call. */
  datatype Authentication = Authenticated(user: Doc<Account>) | Unauthenticated(response: Response)

  /** `protect`: 401 when the header carries no bearer token, when the token
      does not verify, or when the id it verifies to names no account;
      otherwise the account, without its password, is attached. */
  function Authenticate(header: Option<string>, users: map<Id, User>, c: Primitives): (a: Authentication)
    ensures a.Unauthenticated? ==> a.response.code == 401
    ensures a.Authenticated? <==>
      BearerToken(header).Some? && c.verify(BearerToken(header).value).Some? &&
      c.verify(BearerToken(header).value).value in users
    ensures a.Authenticated? ==>
      a.user.id == c.verify(BearerToken(header).value).value &&
      a.user.fields == WithoutPassword(users[a.user.id])
  {
    var token := BearerToken(header);
    if token.None? then
      Unauthenticated(Fail(401, "No token provided"))
    else
      var payload := c.verify(token.value);
      if payload.None? then
        Unauthenticated(Fail(401, "Token verification failed"))
      else if payload.value !in users then
        Unauthenticated(Fail(401, "User not found"))
      else
        Authenticated(Doc(payload.value, WithoutPassword(users[payload.value])))
  }

  /** The request context a handler sees: `req.user` is absent until
      `protect` attaches the account. */
  class Request {
    var user: Option<Doc<Account>>

    constructor ()
      ensures user.None?
    {
      user := None;
    }
  }

  /** `protect` on a request: on success it sets `req.user` to the attached
      account and lets the request continue; on failure `req.user` is left as
      it was and the request ends with the 401 answer. */
  method ProtectRequest(req: Request, header: Option<string>, users: map<Id, User>, c: Primitives)
    returns (a: Authentication)
    modifies req
    ensures a == Authenticate(header, users, c)
    ensures a.Authenticated? ==> req.user == Some(a.user)
    ensures a.Unauthenticated? ==> req.user == old(req.user)
  {
    var token := BearerToken(header);
    if token.None? {
      return Unauthenticated(Fail(401, "No token provided"));
    }
    var payload := c.verify(token.value);
    if payload.None? {
      return Unauthenticated(Fail(401, "Token verification failed"));
    }
    if payload.value !in users {
      return Unauthenticated(Fail(401, "User not found"));
    }
    var user := Doc(payload.value, WithoutPassword(users[payload.value]));
    req.user := Some(user);
    a := Authenticated(user);
  }

  /** A token issued for an existing account, sent as "Bearer <token>",
      authenticates as that account. */
  lemma {:induction false} SignedTokenAuthenticates(id: Id, users: map<Id, User>, c: Primitives)
    requires Sound(c) && id in users
    ensures Authenticate(Some(BearerPrefix + c.sign(id)), users, c) == Authenticated(Doc(id, WithoutPassword(users[id])))
  {
    var header := BearerPrefix + c.sign(id);
    assert BearerPrefix <= header;
    assert header[|BearerPrefix|..] == c.sign(id);
    FirstFieldOfWord(c.sign(id));
  }

  /** The middleware a route can list. */
  datatype Middleware = Protect | IsAdmin | IsTeacher | IsApprovedTeacher | IsStudent

  /** Whether a role check lets the attached account through. */
  function Permits(g: Middleware, a: Account): (ok: bool)
    requires g != Protect
    ensures g == IsAdmin ==> (ok <==> a.role == Admin)
    ensures g == IsTeacher ==> (ok <==> a.role == Teacher)
    ensures g == IsApprovedTeacher ==> (ok <==> a.role == Teacher && a.status == Approved)
    ensures g == IsStudent ==> (ok <==> a.role == Student)
  {
    match g
    case IsAdmin => a.role == Admin
    case IsTeacher => a.role == Teacher
    case IsApprovedTeacher => !(a.role != Teacher || a.status != Approved)
    case IsStudent => a.role == Student
  }

  function Denial(g: Middleware): string
    requires g != Protect
  {
    match g
    case IsAdmin => "Admin access required"
    case IsTeacher => "Teacher access required"
    case IsApprovedTeacher => "Teacher not approved"
    case IsStudent => "Student access required"
  }

  /** Where a middleware chain ends: at the handler, with what `req.user`
      holds, or with an answer that stops the request. */
  datatype ChainResult = Reached(user: Option<Doc<Account>>) | Halted(response: Response)

  /** Runs a middleware chain in order. `protect` sets the attached account; a
      role check reads it (and throws on `req.user.role` when none is attached). */
  function Run(chain: seq<Middleware>, user: Option<Doc<Account>>, header: Option<string>,
               users: map<Id, User>, c: Primitives): (r: ChainResult)
    ensures r.Halted? ==> r.response.code == 401 || r.response.code == 403 || r.response.code == 500
    ensures r.Reached? && (user.Some? || Protect in chain) ==> r.user.Some?
    decreases |chain|
  {
    if chain == [] then Reached(user)
    else if chain[0] == Protect then
      match Authenticate(header, users, c)
      case Authenticated(u) => Run(chain[1..], Some(u), header, users, c)
      case Unauthenticated(response) => Halted(response)
    else if user.None? then
      Halted(Unhandled("Cannot read properties of undefined (reading 'role')"))
    else if Permits(chain[0], user.value.fields) then
      Run(chain[1..], user, header, users, c)
    else
      Halted(Fail(403, Denial(chain[0])))
  }

  /** Role checks after an attached account: they pass through exactly when
      every check permits the account, and otherwise stop with 403. */
  lemma {:induction false} RoleChecks(guards: seq<Middleware>, user: Doc<Account>, header: Option<string>,
                                      users: map<Id, User>, c: Primitives)
    requires Protect !in guards
    ensures Run(guards, Some(user), header, users, c).Reached? <==>
      forall g :: g in guards ==> Permits(g, user.fields)
    ensures Run(guards, Some(user), header, users, c).Reached? ==>
      Run(guards, Some(user), header, users, c).user == Some(user)
    ensures Run(guards, Some(user), header, users, c).Halted? ==>
      Run(guards, Some(user), header, users, c).response.code == 403
  {
    if guards != [] {
      assert Protect !in guards[1..];
      RoleChecks(guards[1..], user, header, users, c);
      assert forall g :: g in guards <==> g == guards[0] || g in guards[1..];
    }
  }

  /** A chain that starts with `protect` and continues with role checks
      reaches the handler exactly when the request authenticates and every
      check permits the account; it stops with 401 when authentication fails
      and with 403 when a check refuses. */
  lemma ProtectedChain(guards: seq<Middleware>, header: Option<string>, users: map<Id, User>, c: Primitives)
    requires Protect !in guards
    ensures var r := Run([Protect] + guards, None, header, users, c);
      var a := Authenticate(header, users, c);
      (r.Reached? <==> a.Authenticated? && forall g :: g in guards ==> Permits(g, a.user.fields)) &&
      (r.Reached? ==> r.user == Some(a.user)) &&
      (a.Unauthenticated? ==> r == Halted(a.response)) &&
      (a.Authenticated? && r.Halted? ==> r.response.code == 403)
  {
    assert ([Protect] + guards)[1..] == guards;
    match Authenticate(header, users, c)
    case Authenticated(u) => RoleChecks(guards, u, header, users, c);
    case Unauthenticated(_) =>
  }
}
