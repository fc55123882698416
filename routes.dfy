/** The course, review and admin routers: tables binding a method and a path pattern
    to a middleware chain and a handler, matched in registration order. */
module Routes {
  import opened Common
  import opened Approval
  import opened Listing
  import opened Crypto
  import opened UserModel
  import opened Http
  import opened AuthMiddleware

  datatype Verb = Get | Post | Put

  /** One segment of a route pattern: a literal word (lower-case) or a `:name`
      parameter. */
  datatype Part = Lit(text: string) | Param

  /** One segment of a request path: a word, or text that casts to an
      identifier. A literal of the tables is never an identifier. */
  datatype Segment = Word(text: string) | ObjectId(id: Id)

  datatype Handler =
    | GetApprovedCourses | CreateCourse | GetMyCourses | GetCourseById | JoinCourse
    | CreateReview | GetApprovedCourseReviews
    | GetStats | GetPendingTeachers | ApproveTeacher | RejectTeacher
    | GetPendingCourses | ApproveCourse | RejectCourse
    | GetPendingReviews | ApproveReview | RejectReview
    | GetMyReviews

  datatype Route = Route(verb: Verb, pattern: seq<Part>, chain: seq<Middleware>, handler: Handler)

  /** A router: the middleware its `router.use` calls register, which run for
      every request that reaches it, then its routes in registration order. */
  datatype Router = Router(uses: seq<Middleware>, routes: seq<Route>)

  /** Literal segments match without regard to case. */
  predicate PartMatches(p: Part, s: Segment) {
    match p
    case Lit(t) => s.Word? && Lower(s.text) == t
    case Param => true
  }

  predicate Matches(pattern: seq<Part>, path: seq<Segment>) {
    |pattern| == |path| && forall i :: 0 <= i < |path| ==> PartMatches(pattern[i], path[i])
  }

  predicate Serves(r: Route, verb: Verb, path: seq<Segment>) {
    r.verb == verb && Matches(r.pattern, path)
  }

  function LookupFrom(routes: seq<Route>, verb: Verb, path: seq<Segment>, from: nat): (k: Option<nat>)
    requires from <= |routes|
    ensures k.Some? ==> from <= k.value < |routes| && Serves(routes[k.value], verb, path)
    ensures k.Some? ==> forall j :: from <= j < k.value ==> !Serves(routes[j], verb, path)
    ensures k.None? ==> forall j :: from <= j < |routes| ==> !Serves(routes[j], verb, path)
    decreases |routes| - from
  {
    if from == |routes| then None
    else if Serves(routes[from], verb, path) then Some(from)
    else LookupFrom(routes, verb, path, from + 1)
  }

  /** The first route, in registration order, that serves the request. */
  function Lookup(routes: seq<Route>, verb: Verb, path: seq<Segment>): (k: Option<nat>)
    ensures k.Some? ==> k.value < |routes| && Serves(routes[k.value], verb, path)
    ensures k.Some? ==> forall j :: 0 <= j < k.value ==> !Serves(routes[j], verb, path)
    ensures k.None? ==> forall j :: 0 <= j < |routes| ==> !Serves(routes[j], verb, path)
  {
    LookupFrom(routes, verb, path, 0)
  }

  /** Lookup finds route `k` exactly when `k` serves the request and no
      earlier route does. */
  lemma LookupIsFirst(routes: seq<Route>, verb: Verb, path: seq<Segment>, k: nat)
    requires k < |routes| && Serves(routes[k], verb, path)
    requires forall j :: 0 <= j < k ==> !Serves(routes[j], verb, path)
    ensures Lookup(routes, verb, path) == Some(k)
  {
  }

  /** `req.params`: the segment at the first parameter of the pattern. */
  function FirstParam(pattern: seq<Part>, path: seq<Segment>): (a: Option<Segment>)
    requires |pattern| == |path|
    ensures a.None? <==> Param !in pattern
    ensures a.Some? ==> exists i :: 0 <= i < |path| && pattern[i] == Param && path[i] == a.value
  {
    if pattern == [] then None
    else if pattern[0] == Param then Some(path[0])
    else
      var rest := FirstParam(pattern[1..], path[1..]);
      assert forall p :: p in pattern <==> p == pattern[0] || p in pattern[1..];
      if rest.Some? then
        ghost var i :| 0 <= i < |path[1..]| && pattern[1..][i] == Param && path[1..][i] == rest.value;
        assert pattern[i + 1] == Param && path[i + 1] == rest.value;
        rest
      else
        rest
  }

  /** A parameter after one literal takes the second segment. */
  lemma SecondParam(pattern: seq<Part>, path: seq<Segment>)
    requires |pattern| == |path| >= 2 && pattern[0].Lit? && pattern[1] == Param
    ensures FirstParam(pattern, path) == Some(path[1])
  {
    assert pattern[1..][0] == Param;
  }

  /** courseRoutes, in registration order. */
  function CourseRoutes(): (rs: seq<Route>)
    ensures |rs| == 7
    ensures forall i :: 0 <= i < |rs| ==>
      |rs[i].chain| >= 1 && rs[i].chain[0] == Protect && Protect !in rs[i].chain[1..]
  {
    [ Route(Get, [], [Protect], GetApprovedCourses),
      Route(Post, [], [Protect, IsTeacher, IsApprovedTeacher], CreateCourse),
      Route(Get, [Lit("my")], [Protect, IsTeacher], GetMyCourses),
      Route(Get, [Param], [Protect], GetCourseById),
      Route(Put, [Param, Lit("join")], [Protect, IsStudent], JoinCourse),
      Route(Post, [Param, Lit("reviews")], [Protect, IsStudent], CreateReview),
      Route(Get, [Param, Lit("reviews")], [Protect], GetApprovedCourseReviews) ]
  }

  function CourseRouter(): Router {
    Router([], CourseRoutes())
  }

  /** reviewRoutes: the one route, for students. */
  function ReviewRoutes(): (rs: seq<Route>)
    ensures |rs| == 1 && rs[0].chain == [Protect, IsStudent] && rs[0].handler == GetMyReviews
  {
    [ Route(Get, [Lit("my")], [Protect, IsStudent], GetMyReviews) ]
  }

  function ReviewRouter(): Router {
    Router([], ReviewRoutes())
  }

  /** adminRoutes: `protect` then `isAdmin` for the whole router, and routes
      with no middleware of their own. */
  function AdminRoutes(): (rs: seq<Route>)
    ensures |rs| == 10
    ensures forall i :: 0 <= i < |rs| ==> rs[i].chain == []
  {
    [ Route(Get, [Lit("stats")], [], GetStats),
      Route(Get, [Lit("teachers"), Lit("pending")], [], GetPendingTeachers),
      Route(Put, [Lit("teachers"), Param, Lit("approve")], [], ApproveTeacher),
      Route(Put, [Lit("teachers"), Param, Lit("reject")], [], RejectTeacher),
      Route(Get, [Lit("courses"), Lit("pending")], [], GetPendingCourses),
      Route(Put, [Lit("courses"), Param, Lit("approve")], [], ApproveCourse),
      Route(Put, [Lit("courses"), Param, Lit("reject")], [], RejectCourse),
      Route(Get, [Lit("reviews"), Lit("pending")], [], GetPendingReviews),
      Route(Put, [Lit("reviews"), Param, Lit("approve")], [], ApproveReview),
      Route(Put, [Lit("reviews"), Param, Lit("reject")], [], RejectReview) ]
  }

  function AdminRouter(): Router {
    Router([Protect, IsAdmin], AdminRoutes())
  }

  /** What a router does with a request: answer it itself, or call a handler
      with the attached account and the path parameter. */
  datatype Plan = Answer(response: Response) | Call(handler: Handler, user: Option<Doc<Account>>, arg: Option<Segment>)

  const NoRoute: Response := Fail(404, "Not Found")

  /** The router-wide middleware run first, whatever the path; then the first
      serving route's own chain; then its handler. A request no route serves
      falls out of the router to the 404 answer. */
  function Resolve(router: Router, verb: Verb, path: seq<Segment>, header: Option<string>,
                   users: map<Id, User>, c: Primitives): (p: Plan)
    ensures p.Call? ==>
      var k := Lookup(router.routes, verb, path);
      k.Some? && p.handler == router.routes[k.value].handler &&
      p.arg == FirstParam(router.routes[k.value].pattern, path)
    ensures Run(router.uses, None, header, users, c).Reached? && Lookup(router.routes, verb, path).None? ==>
      p == Answer(NoRoute)
    ensures p.Answer? ==>
      p.response.code == 401 || p.response.code == 403 || p.response.code == 404 || p.response.code == 500
  {
    match Run(router.uses, None, header, users, c)
    case Halted(response) => Answer(response)
    case Reached(user) =>
      var k := Lookup(router.routes, verb, path);
      if k.None? then Answer(NoRoute)
      else
        var route := router.routes[k.value];
        match Run(route.chain, user, header, users, c)
        case Halted(response) => Answer(response)
        case Reached(u) => Call(route.handler, u, FirstParam(route.pattern, path))
  }

  /** Who may use a handler, as the routes promise it: the catalogue, one
      course and its reviews need only a signed-in account; creating a course
      needs an approved teacher, the teacher's own list any teacher, joining
      and reviewing a student, the own review list a student, and every admin
      handler an admin. */
  predicate Allowed(h: Handler, a: Account) {
    match h
    case GetApprovedCourses => true
    case GetCourseById => true
    case GetApprovedCourseReviews => true
    case CreateCourse => a.role == Teacher && a.status == Approved
    case GetMyCourses => a.role == Teacher
    case JoinCourse => a.role == Student
    case CreateReview => a.role == Student
    case GetMyReviews => a.role == Student
    case _ => a.role == Admin
  }

  /** One role check permits what it permits. */
  lemma OneCheck(g: Middleware, a: Account)
    requires g != Protect
    ensures (forall x :: x in [g] ==> Permits(x, a)) <==> Permits(g, a)
  {
    assert g in [g];
  }

  /** Two role checks permit what both permit. */
  lemma TwoChecks(g: Middleware, h: Middleware, a: Account)
    requires g != Protect && h != Protect
    ensures (forall x :: x in [g, h] ==> Permits(x, a)) <==> Permits(g, a) && Permits(h, a)
  {
    assert g in [g, h] && h in [g, h];
  }

  /** Each course route's chain is `protect` followed by role checks that
      together permit exactly the accounts its handler allows. */
  lemma CourseChainShape(k: nat, a: Account)
    requires k < |CourseRoutes()|
    ensures var r := CourseRoutes()[k];
      r.chain != [] && r.chain[0] == Protect && r.chain == [Protect] + r.chain[1..] &&
      Protect !in r.chain[1..] &&
      ((forall g :: g in r.chain[1..] ==> Permits(g, a)) <==> Allowed(r.handler, a))
  {
    var r := CourseRoutes()[k];
    var checks := r.chain[1..];
    assert r.chain == [Protect] + checks;
    if k == 1 {
      assert checks == [IsTeacher, IsApprovedTeacher];
      TwoChecks(IsTeacher, IsApprovedTeacher, a);
    } else if k == 2 {
      assert checks == [IsTeacher];
      OneCheck(IsTeacher, a);
    } else if k == 4 || k == 5 {
      assert checks == [IsStudent];
      OneCheck(IsStudent, a);
    } else {
      assert checks == [];
    }
  }

  /** A course request a route serves reaches that route's handler exactly
      when it authenticates and the handler allows the account; a failed
      authentication gets `protect`'s 401 answer. A request no route serves
      gets 404, signed in or not. */
  lemma CourseAccess(verb: Verb, path: seq<Segment>, header: Option<string>, users: map<Id, User>, c: Primitives)
    ensures var p := Resolve(CourseRouter(), verb, path, header, users, c);
      var a := Authenticate(header, users, c);
      var k := Lookup(CourseRoutes(), verb, path);
      (k.None? ==> p == Answer(NoRoute)) &&
      (k.Some? ==> (p.Call? <==> a.Authenticated? && Allowed(CourseRoutes()[k.value].handler, a.user.fields))) &&
      (k.Some? && a.Unauthenticated? ==> p == Answer(a.response)) &&
      (p.Call? ==> k.Some? && p.handler == CourseRoutes()[k.value].handler && p.user == Some(a.user))
  {
    var k := Lookup(CourseRoutes(), verb, path);
    if k.Some? {
      var r := CourseRoutes()[k.value];
      var a := Authenticate(header, users, c);
      if a.Authenticated? {
        CourseChainShape(k.value, a.user.fields);
      } else {
        CourseChainShape(k.value, Account("", "", Student, Approved, 0));
      }
      ProtectedChain(r.chain[1..], header, users, c);
    }
  }

  /** Every admin request passes `protect` and then `isAdmin` before any
      route is consulted: a handler is called exactly when the caller is an
      admin and a route serves the request. A caller who is not an admin gets
      403, and one who does not authenticate gets `protect`'s 401, whatever
      the path. */
  lemma AdminAccess(verb: Verb, path: seq<Segment>, header: Option<string>, users: map<Id, User>, c: Primitives)
    ensures var p := Resolve(AdminRouter(), verb, path, header, users, c);
      var a := Authenticate(header, users, c);
      var k := Lookup(AdminRoutes(), verb, path);
      (p.Call? <==> a.Authenticated? && a.user.fields.role == Admin && k.Some?) &&
      (p.Call? ==> p.handler == AdminRoutes()[k.value].handler && p.user == Some(a.user)) &&
      (a.Unauthenticated? ==> p == Answer(a.response)) &&
      (a.Authenticated? && a.user.fields.role != Admin ==> p == Answer(Fail(403, "Admin access required")))
  {
    assert AdminRouter().uses == [Protect] + [IsAdmin];
    ProtectedChain([IsAdmin], header, users, c);
    assert forall j :: 0 <= j < |AdminRoutes()| ==> AdminRoutes()[j].chain == [];
  }

  /** GET /api/reviews/my reaches getMyReviews exactly when the request
      authenticates as a student; a caller of another role gets 403, one who
      does not authenticate `protect`'s 401, and any other path 404. */
  lemma ReviewAccess(verb: Verb, path: seq<Segment>, header: Option<string>, users: map<Id, User>, c: Primitives)
    ensures var p := Resolve(ReviewRouter(), verb, path, header, users, c);
      var a := Authenticate(header, users, c);
      var k := Lookup(ReviewRoutes(), verb, path);
      (k.None? ==> p == Answer(NoRoute)) &&
      (p.Call? <==> k.Some? && a.Authenticated? && a.user.fields.role == Student) &&
      (p.Call? ==> p.handler == GetMyReviews && p.user == Some(a.user)) &&
      (k.Some? && a.Unauthenticated? ==> p == Answer(a.response)) &&
      (k.Some? && a.Authenticated? && a.user.fields.role != Student ==>
        p == Answer(Fail(403, "Student access required")))
  {
    var k := Lookup(ReviewRoutes(), verb, path);
    if k.Some? {
      assert ReviewRoutes()[k.value].chain == [Protect] + [IsStudent];
      ProtectedChain([IsStudent], header, users, c);
    }
  }

  /** `/my` is registered before `/:id`: although the parameter route would
      match it too, the word "my" (in any case) reaches getMyCourses. An
      identifier reaches getCourseById. */
  lemma MyBeforeId(t: string, id: Id)
    requires Lower(t) == "my"
    ensures Serves(CourseRoutes()[3], Get, [Word(t)])
    ensures Lookup(CourseRoutes(), Get, [Word(t)]) == Some(2) && CourseRoutes()[2].handler == GetMyCourses
    ensures Lookup(CourseRoutes(), Get, [ObjectId(id)]) == Some(3) && CourseRoutes()[3].handler == GetCourseById
  {
    LookupIsFirst(CourseRoutes(), Get, [Word(t)], 2);
    assert !PartMatches(CourseRoutes()[2].pattern[0], [ObjectId(id)][0]);
    LookupIsFirst(CourseRoutes(), Get, [ObjectId(id)], 3);
  }

  function Decision(v: Verdict): string {
    match v
    case Approve => "approve"
    case Reject => "reject"
  }

  /** The three kinds of record an admin reviews. */
  datatype Entity = Teachers | Courses | Reviews

  function EntityWord(e: Entity): string {
    match e
    case Teachers => "teachers"
    case Courses => "courses"
    case Reviews => "reviews"
  }

  /** The admin handler a pending listing (no verdict) or a decision on an
      entity reaches. */
  function AdminHandler(e: Entity, v: Option<Verdict>): Handler {
    match (e, v)
    case (Teachers, None) => GetPendingTeachers
    case (Teachers, Some(Approve)) => ApproveTeacher
    case (Teachers, Some(Reject)) => RejectTeacher
    case (Courses, None) => GetPendingCourses
    case (Courses, Some(Approve)) => ApproveCourse
    case (Courses, Some(Reject)) => RejectCourse
    case (Reviews, None) => GetPendingReviews
    case (Reviews, Some(Approve)) => ApproveReview
    case (Reviews, Some(Reject)) => RejectReview
  }

  /** Where an entity's routes start in the admin table. */
  function EntityBase(e: Entity): nat {
    match e
    case Teachers => 1
    case Courses => 4
    case Reviews => 7
  }

  /** The entity whose routes hold position `j` of the admin table. */
  function EntityAt(j: nat): Entity {
    if j < 4 then Teachers else if j < 7 then Entity.Courses else Entity.Reviews
  }

  /** After `/stats`, each entity has three routes under its word: its
      pending listing, then approve, then reject. */
  lemma AdminRouteShape(j: nat)
    requires 1 <= j < |AdminRoutes()|
    ensures var e := EntityAt(j);
      var b := EntityBase(e);
      b <= j < b + 3 &&
      AdminRoutes()[j] ==
        if j == b then Route(Get, [Lit(EntityWord(e)), Lit("pending")], [], AdminHandler(e, None))
        else
          var v := if j == b + 1 then Approve else Reject;
          Route(Put, [Lit(EntityWord(e)), Param, Lit(Decision(v))], [], AdminHandler(e, Some(v)))
  {
  }

  /** GET /stats, in any case, reaches getStats. */
  lemma StatsRoute(path: seq<Segment>)
    requires |path| == 1 && path[0].Word? && Lower(path[0].text) == "stats"
    ensures var k := Lookup(AdminRoutes(), Get, path);
      k.Some? && AdminRoutes()[k.value].handler == GetStats
  {
    LookupIsFirst(AdminRoutes(), Get, path, 0);
  }

  /** A path that starts with an entity's word is served by none of the
      routes of the entities listed before it. */
  lemma EarlierEntitiesRefuse(e: Entity, verb: Verb, path: seq<Segment>)
    requires |path| >= 1 && path[0].Word? && Lower(path[0].text) == EntityWord(e)
    ensures forall j :: 1 <= j < EntityBase(e) ==> !Serves(AdminRoutes()[j], verb, path)
  {
    forall j | 1 <= j < EntityBase(e)
      ensures !Serves(AdminRoutes()[j], verb, path)
    {
      AdminRouteShape(j);
      assert AdminRoutes()[j].pattern[0] != Lit(EntityWord(e));
    }
  }

  /** GET /<entity>/pending, in any case, reaches that entity's pending
      listing. */
  lemma PendingRoute(e: Entity, path: seq<Segment>)
    requires |path| == 2 && path[0].Word? && Lower(path[0].text) == EntityWord(e)
    requires path[1].Word? && Lower(path[1].text) == "pending"
    ensures var k := Lookup(AdminRoutes(), Get, path);
      k.Some? && AdminRoutes()[k.value].handler == AdminHandler(e, None)
  {
    var routes := AdminRoutes();
    var k := EntityBase(e);
    EarlierEntitiesRefuse(e, Get, path);
    assert !Serves(routes[0], Get, path);
    AdminRouteShape(k);
    LookupIsFirst(routes, Get, path, k);
  }

  /** Where an entity's approve or reject route sits in the admin table. */
  function DecisionIndex(e: Entity, v: Verdict): nat {
    EntityBase(e) + (if v == Approve then 1 else 2)
  }

  /** An approve or reject path is served by its decision route and by no
      route before it. */
  lemma DecisionIsFirst(e: Entity, v: Verdict, path: seq<Segment>)
    requires |path| == 3 && path[0].Word? && Lower(path[0].text) == EntityWord(e)
    requires path[1].ObjectId? && path[2].Word? && Lower(path[2].text) == Decision(v)
    ensures DecisionIndex(e, v) < |AdminRoutes()| && Serves(AdminRoutes()[DecisionIndex(e, v)], Put, path)
    ensures forall j :: 0 <= j < DecisionIndex(e, v) ==> !Serves(AdminRoutes()[j], Put, path)
  {
    var routes := AdminRoutes();
    var base := EntityBase(e);
    var k := DecisionIndex(e, v);
    EarlierEntitiesRefuse(e, Put, path);
    forall j | 0 <= j < k
      ensures !Serves(routes[j], Put, path)
    {
      if j == 0 {
        assert routes[0].verb == Get;
      } else if base <= j {
        AdminRouteShape(j);
        assert j == base ==> routes[j].verb == Get;
        assert j != base ==> routes[j].pattern[2] != Lit(Decision(v));
      }
    }
    AdminRouteShape(k);
  }

  /** PUT /<entity>/:id/approve and /reject, in any case, reach the matching
      decision with the identifier as its parameter. */
  lemma DecisionRoute(e: Entity, id: Id, v: Verdict, path: seq<Segment>)
    requires |path| == 3 && path[0].Word? && Lower(path[0].text) == EntityWord(e)
    requires path[1] == ObjectId(id) && path[2].Word? && Lower(path[2].text) == Decision(v)
    ensures var k := Lookup(AdminRoutes(), Put, path);
      k.Some? && AdminRoutes()[k.value].handler == AdminHandler(e, Some(v)) &&
      FirstParam(AdminRoutes()[k.value].pattern, path) == Some(ObjectId(id))
  {
    var k := DecisionIndex(e, v);
    DecisionIsFirst(e, v, path);
    LookupIsFirst(AdminRoutes(), Put, path, k);
    AdminRouteShape(k);
    SecondParam(AdminRoutes()[k].pattern, path);
  }
}
